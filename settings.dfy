/** settings.js: the settings record `extension_settings[EXTENSION_NAME]`,
    the settings panel's controls, and the operations that keep them in step:
    drawing the icon on the rocket button and in the preview, the change
    handler, the save routine's re-sync from the controls, and the defaulting
    done on load. */
module Settings {
  import opened JsValues
  import opened JsStrings
  import opened Constants
  import opened IconResolver
  import opened Dom

  /** The settings record as a value. The fields hold whatever JSON the host
      stored, so each is a JsValue. */
  datatype SettingsValue = SettingsValue(
    enabled: JsValue,
    iconType: JsValue,
    customIconUrl: JsValue,
    matchButtonColors: JsValue,
    menuStyles: JsValue)

  /** A fresh deep copy of DEFAULT_MENU_STYLES. constants.js does not define
      this constant; the model assumes a defined object and keeps it opaque. */
  const DEFAULT_MENU_STYLES: JsValue := Obj(0)

  /** The options of the enabled dropdown. */
  const ENABLED_OPTIONS: seq<string> := ["true", "false"]

  /** The settings record, updated in place field by field. */
  class SettingsRecord {
    var enabled: JsValue
    var iconType: JsValue
    var customIconUrl: JsValue
    var matchButtonColors: JsValue
    var menuStyles: JsValue

    function Value(): SettingsValue
      reads this
    {
      SettingsValue(enabled, iconType, customIconUrl, matchButtonColors, menuStyles)
    }
  }

  /** What the four settings controls hold; None where `getElementById`
      finds no element. */
  datatype Controls = Controls(
    enabled: Option<string>,
    iconType: Option<string>,
    customIconUrl: Option<string>,
    colorMatch: Option<bool>)

  /** The settings panel: the enabled dropdown's and icon-type dropdown's
      `value`, the custom-URL input's `value` and the colour-match checkbox's
      `checked`, each None when the element is absent. */
  class Panel {
    var enabledSelect: Option<string>
    var iconTypeSelect: Option<string>
    var customIconInput: Option<string>
    var colorMatchBox: Option<bool>

    function Readings(): Controls
      reads this
    {
      Controls(enabledSelect, iconTypeSelect, customIconInput, colorMatchBox)
    }
  }

  // ---------------------------------------------------------------------
  // Loading: the defaulting statements of loadAndApplySettings
  // ---------------------------------------------------------------------

  /** The record after loadAndApplySettings: `enabled` and
      `matchButtonColors` become `x !== false`, `iconType` and
      `customIconUrl` become `x || default`, and a falsy `menuStyles` becomes
      the default styles. */
  function Defaulted(s: SettingsValue): SettingsValue {
    SettingsValue(
      Bool(s.enabled != Bool(false)),
      Or(s.iconType, Str(ICON_ROCKET)),
      Or(s.customIconUrl, Str("")),
      Bool(s.matchButtonColors != Bool(false)),
      Or(s.menuStyles, DEFAULT_MENU_STYLES))
  }

  /** The shape every loaded record has. */
  predicate Normalised(s: SettingsValue) {
    s.enabled.Bool? && s.matchButtonColors.Bool?
    && Truthy(s.iconType)
    && (Truthy(s.customIconUrl) || s.customIconUrl == Str(""))
    && Truthy(s.menuStyles)
  }

  /** What defaulting does to each field: the two flags are false only for a
      stored `false`; a falsy icon type becomes rocket and a falsy URL the
      empty string; truthy values are kept. */
  lemma DefaultingRules(s: SettingsValue)
    ensures Defaulted(s).enabled.Bool? && Defaulted(s).matchButtonColors.Bool?
    ensures Defaulted(s).enabled == Bool(false) <==> s.enabled == Bool(false)
    ensures Defaulted(s).matchButtonColors == Bool(false) <==> s.matchButtonColors == Bool(false)
    ensures Truthy(s.iconType) ==> Defaulted(s).iconType == s.iconType
    ensures !Truthy(s.iconType) ==> Defaulted(s).iconType == Str(ICON_ROCKET)
    ensures Truthy(s.customIconUrl) ==> Defaulted(s).customIconUrl == s.customIconUrl
    ensures !Truthy(s.customIconUrl) ==> Defaulted(s).customIconUrl == Str("")
    ensures Truthy(s.menuStyles) ==> Defaulted(s).menuStyles == s.menuStyles
    ensures !Truthy(s.menuStyles) ==> Defaulted(s).menuStyles == DEFAULT_MENU_STYLES
  {
  }

  /** Defaulting leaves a record alone exactly when it is already in loaded
      shape, and always produces that shape. */
  lemma DefaultingFixedPoints(s: SettingsValue)
    ensures Normalised(Defaulted(s))
    ensures Defaulted(s) == s <==> Normalised(s)
  {
  }

  /** Loading twice gives the record loading once gives. */
  lemma DefaultingIdempotent(s: SettingsValue)
    ensures Defaulted(Defaulted(s)) == Defaulted(s)
  {
    DefaultingFixedPoints(s);
    DefaultingFixedPoints(Defaulted(s));
  }

  /** Assigning `value` to a select element picks the option with that value,
      or none (value "") when no option has it. */
  function SelectValue(options: seq<string>, v: string): (r: string)
    ensures r in options || r == ""
    ensures v in options ==> r == v
    ensures v !in options ==> r == ""
  {
    if v in options then v else ""
  }

  predicate IsNewline(c: char) {
    c == '\n' || c == '\r'
  }

  predicate NoNewlines(s: string) {
    forall k :: 0 <= k < |s| ==> !IsNewline(s[k])
  }

  /** Assigning `value` to a text input strips every line feed and carriage
      return from the string (the input's value sanitization); the other
      characters stay. */
  function StripNewlines(s: string): (r: string)
    ensures |r| <= |s|
    ensures forall c :: c in r <==> c in s && !IsNewline(c)
  {
    if s == [] then [] else (if IsNewline(s[0]) then [] else [s[0]]) + StripNewlines(s[1..])
  }

  /** A text input keeps an assigned string unchanged exactly when it holds
      no line break. */
  lemma {:induction false} StripNewlinesIdentity(s: string)
    ensures StripNewlines(s) == s <==> NoNewlines(s)
  {
    if s != [] {
      StripNewlinesIdentity(s[1..]);
      if IsNewline(s[0]) {
        assert |StripNewlines(s)| < |s|;
      } else {
        assert StripNewlines(s) == [s[0]] + StripNewlines(s[1..]);
        assert NoNewlines(s) <==> NoNewlines(s[1..]) by {
          assert forall k :: 0 < k < |s| ==> s[k] == s[1..][k - 1];
        }
        if StripNewlines(s) == s {
          assert StripNewlines(s)[1..] == s[1..];
        }
      }
    }
  }

  /** The controls after loadAndApplySettings pushed the record `d` into
      those that exist. */
  function Pushed(d: SettingsValue, c: Controls): Controls {
    Controls(
      if c.enabled.Some? then Some(SelectValue(ENABLED_OPTIONS, ToString(d.enabled))) else None,
      if c.iconType.Some? then Some(SelectValue(ICON_TYPES, ToString(d.iconType))) else None,
      if c.customIconUrl.Some? then Some(StripNewlines(ToString(d.customIconUrl))) else None,
      if c.colorMatch.Some? then Some(Truthy(d.matchButtonColors)) else None)
  }

  /** Loading twice leaves the controls as loading once. */
  lemma LoadIdempotent(s: SettingsValue, c: Controls)
    ensures Pushed(Defaulted(Defaulted(s)), Pushed(Defaulted(s), c)) == Pushed(Defaulted(s), c)
  {
    DefaultingIdempotent(s);
  }

  /** A stored icon type that is one of the dropdown's options. */
  predicate KnownIconType(v: JsValue) {
    v.Str? && v.s in ICON_TYPES
  }

  /** Saving right after loading gives back the loaded record exactly when
      the icon type is one of the dropdown's options (or the dropdown is
      absent) and the custom URL is a string without line breaks (or its
      input is absent). A stored icon type is read back from the dropdown as
      its string form when that names an option, and as "" otherwise. */
  lemma SaveAfterLoad(s: SettingsValue, c: Controls)
    ensures var d := Defaulted(s);
            Resync(d, Pushed(d, c)) == d
            <==> (c.iconType.None? || KnownIconType(d.iconType))
                 && (c.customIconUrl.None? || (d.customIconUrl.Str? && NoNewlines(d.customIconUrl.s)))
    ensures var d := Defaulted(s);
            c.iconType.Some? ==>
              Resync(d, Pushed(d, c)).iconType == (if NamesIconType(d.iconType) then Str(ToString(d.iconType)) else Str(""))
  {
    var d := Defaulted(s);
    DefaultingFixedPoints(s);
    assert d.enabled == Bool(true) || d.enabled == Bool(false);
    IconTypeKeys(d.iconType);
    if d.customIconUrl.Str? {
      StripNewlinesIdentity(d.customIconUrl.s);
    }
  }

  // ---------------------------------------------------------------------
  // Saving: the re-sync of saveSettings
  // ---------------------------------------------------------------------

  /** saveSettings first copies each existing control into its field. */
  function Resync(s: SettingsValue, c: Controls): SettingsValue {
    s.(enabled := if c.enabled.Some? then Bool(c.enabled.value == "true") else s.enabled,
       iconType := if c.iconType.Some? then Str(c.iconType.value) else s.iconType,
       customIconUrl := if c.customIconUrl.Some? then Str(c.customIconUrl.value) else s.customIconUrl,
       matchButtonColors := if c.colorMatch.Some? then Bool(c.colorMatch.value) else s.matchButtonColors)
  }

  /** Every existing control agrees with its field. */
  predicate Synced(s: SettingsValue, c: Controls) {
    (c.enabled.Some? ==> s.enabled == Bool(c.enabled.value == "true"))
    && (c.iconType.Some? ==> s.iconType == Str(c.iconType.value))
    && (c.customIconUrl.Some? ==> s.customIconUrl == Str(c.customIconUrl.value))
    && (c.colorMatch.Some? ==> s.matchButtonColors == Bool(c.colorMatch.value))
  }

  /** The re-sync overwrites a field only when its control exists, never
      touches `menuStyles`, leaves the record agreeing with the controls, and
      changes nothing when they already agree. */
  lemma ResyncProperties(s: SettingsValue, c: Controls)
    ensures Resync(s, c).menuStyles == s.menuStyles
    ensures c.enabled.None? ==> Resync(s, c).enabled == s.enabled
    ensures c.iconType.None? ==> Resync(s, c).iconType == s.iconType
    ensures c.customIconUrl.None? ==> Resync(s, c).customIconUrl == s.customIconUrl
    ensures c.colorMatch.None? ==> Resync(s, c).matchButtonColors == s.matchButtonColors
    ensures Synced(Resync(s, c), c)
    ensures Resync(s, c) == s <==> Synced(s, c)
    ensures Resync(Resync(s, c), c) == Resync(s, c)
  {
  }

  /** Where saveSettings sends the record and whether that call throws: the
      host's save hook, or `localStorage.setItem` when the host has none
      (which throws when storage is full or disabled). */
  datatype Host = HostSaveHook(throws: bool) | LocalStorageOnly(throws: bool)

  /** How saveSettings ends: it returns true, returns false, or throws. */
  datatype SaveOutcome = Saved | Failed | Threw

  /** saveSettings as written: the hook's exception is caught and gives
      false; the local-storage write has no `try`, so its exception escapes. */
  function SaveResult(host: Host): SaveOutcome {
    match host
    case HostSaveHook(throws) => if throws then Failed else Saved
    case LocalStorageOnly(throws) => if throws then Threw else Saved
  }

  /** saveSettings with the local-storage write guarded like the hook. */
  function GuardedSaveResult(host: Host): SaveOutcome {
    if host.throws then Failed else Saved
  }

  /** As written, saveSettings returns true exactly when the save call does
      not throw, and throws exactly when the local-storage write does. */
  lemma StorageFailureEscapes(host: Host)
    ensures SaveResult(host) == Saved <==> !host.throws
    ensures SaveResult(host) == Threw <==> host.LocalStorageOnly? && host.throws
    ensures SaveResult(LocalStorageOnly(true)) == Threw
  {
  }

  /** Guarded, saveSettings never throws: it returns false exactly when the
      save call fails, and agrees with the code as written otherwise. */
  lemma GuardedSaveNeverThrows(host: Host)
    ensures GuardedSaveResult(host) != Threw
    ensures GuardedSaveResult(host) == Saved <==> !host.throws
    ensures SaveResult(host) != Threw ==> GuardedSaveResult(host) == SaveResult(host)
  {
  }

  // ---------------------------------------------------------------------
  // Changing a control: handleSettingsChange
  // ---------------------------------------------------------------------

  /** The `target` of a change event: its id, `value` and `checked`. */
  datatype Target = Target(id: string, value: string, checked: bool)

  /** The field write of the handler's branch for `t.id`, before the icon is
      redrawn and the settings saved. */
  function OwnWrite(s: SettingsValue, t: Target): SettingsValue {
    if t.id == ID_SETTINGS_ENABLED_DROPDOWN then s.(enabled := Bool(t.value == "true"))
    else if t.id == ID_ICON_TYPE_DROPDOWN then s.(iconType := Str(t.value))
    else if t.id == ID_CUSTOM_ICON_URL then s.(customIconUrl := Str(t.value))
    else if t.id == ID_COLOR_MATCH_CHECKBOX then s.(matchButtonColors := Bool(t.checked))
    else s
  }

  /** Each control writes its own field and no other; any other id writes
      nothing. */
  lemma OwnWriteOnlyItsField(s: SettingsValue, t: Target)
    ensures OwnWrite(s, t).menuStyles == s.menuStyles
    ensures OwnWrite(s, t).enabled
            == if t.id == ID_SETTINGS_ENABLED_DROPDOWN then Bool(t.value == "true") else s.enabled
    ensures OwnWrite(s, t).iconType
            == if t.id == ID_ICON_TYPE_DROPDOWN then Str(t.value) else s.iconType
    ensures OwnWrite(s, t).customIconUrl
            == if t.id == ID_CUSTOM_ICON_URL then Str(t.value) else s.customIconUrl
    ensures OwnWrite(s, t).matchButtonColors
            == if t.id == ID_COLOR_MATCH_CHECKBOX then Bool(t.checked) else s.matchButtonColors
  {
    Constants.SettingsIdsDerived();
  }

  /** The handler's whole effect on the record: the upload input returns at
      once; every other id writes its field and then saveSettings re-syncs
      from the controls. */
  function ChangeEffect(s: SettingsValue, t: Target, c: Controls): SettingsValue {
    if t.id == ID_ICON_FILE_UPLOAD then s else Resync(OwnWrite(s, t), c)
  }

  /** The event's target is the panel control with its id. */
  predicate TargetIsControl(t: Target, c: Controls) {
    (t.id == ID_SETTINGS_ENABLED_DROPDOWN ==> c.enabled == Some(t.value))
    && (t.id == ID_ICON_TYPE_DROPDOWN ==> c.iconType == Some(t.value))
    && (t.id == ID_CUSTOM_ICON_URL ==> c.customIconUrl == Some(t.value))
    && (t.id == ID_COLOR_MATCH_CHECKBOX ==> c.colorMatch == Some(t.checked))
  }

  /** Every existing control other than the one with id `id` agrees with
      its field. */
  predicate SyncedExcept(s: SettingsValue, c: Controls, id: string) {
    (id != ID_SETTINGS_ENABLED_DROPDOWN && c.enabled.Some? ==> s.enabled == Bool(c.enabled.value == "true"))
    && (id != ID_ICON_TYPE_DROPDOWN && c.iconType.Some? ==> s.iconType == Str(c.iconType.value))
    && (id != ID_CUSTOM_ICON_URL && c.customIconUrl.Some? ==> s.customIconUrl == Str(c.customIconUrl.value))
    && (id != ID_COLOR_MATCH_CHECKBOX && c.colorMatch.Some? ==> s.matchButtonColors == Bool(c.colorMatch.value))
  }

  /** When the record agrees with every control but the one that changed,
      and the event comes from that control, the save's re-sync adds
      nothing: the whole change writes only the target's field (with the
      control's new value), and afterwards the record agrees with every
      control. */
  lemma ChangeTouchesOnlyTarget(s: SettingsValue, t: Target, c: Controls)
    requires SyncedExcept(s, c, t.id) && TargetIsControl(t, c)
    ensures ChangeEffect(s, t, c) == OwnWrite(s, t)
    ensures Synced(ChangeEffect(s, t, c), c)
  {
    Constants.SettingsIdsDerived();
    OwnWriteOnlyItsField(s, t);
    assert Synced(OwnWrite(s, t), c);
    ResyncProperties(OwnWrite(s, t), c);
  }

  /** Sample change: switching the icon-type dropdown from rocket to star
      while every other control agrees writes star and nothing else. */
  lemma IconTypeChangeSample(menuStyles: JsValue)
    ensures var s := SettingsValue(Bool(true), Str(ICON_ROCKET), Str(""), Bool(true), menuStyles);
            var t := Target(ID_ICON_TYPE_DROPDOWN, ICON_STAR, false);
            var c := Controls(Some("true"), Some(ICON_STAR), Some(""), Some(true));
            SyncedExcept(s, c, t.id) && TargetIsControl(t, c)
            && ChangeEffect(s, t, c) == s.(iconType := Str(ICON_STAR)) && ChangeEffect(s, t, c) != s
  {
    Constants.SettingsIdsDerived();
    Constants.IconTypesDistinct();
  }

  /** The handler's icon redraws can run without `trim` throwing. */
  predicate ChangeDefined(s: SettingsValue, t: Target) {
    var w := OwnWrite(s, t);
    (t.id == ID_ICON_TYPE_DROPDOWN ==> PreviewDefined(Str(t.value), s.customIconUrl))
    && (t.id != ID_ICON_FILE_UPLOAD ==> DisplayDefined(w.iconType, w.customIconUrl))
  }

  // ---------------------------------------------------------------------
  // Drawing the icon into elements
  // ---------------------------------------------------------------------

  /** The CSS `url('...')` value the icon code assigns. */
  function CssUrl(u: string): string {
    "url('" + u + "')"
  }

  /** A character that ends a CSS single-quoted string (`'`), breaks it (a
      line feed, carriage return or form feed), or starts an escape in it (a
      backslash). The model counts a URL holding a backslash as rejected,
      although CSS reads the escape and the value still parses. */
  predicate CssStringSpecial(c: char) {
    c == '\'' || c == '\\' || c == '\n' || c == '\r' || c == '\U{000C}'
  }

  /** The model's rule for the style setter: it takes `url('u')` when `u`
      holds no such character, and otherwise ignores the value as one that
      does not parse, leaving the property as it was. */
  predicate CssUrlAccepted(u: string) {
    forall k :: 0 <= k < |u| ==> !CssStringSpecial(u[k])
  }

  /** The four background properties show the picture, or are all cleared.
      A picture whose `url('...')` value the style setter rejects keeps the
      cleared background image, so the element shows nothing. */
  predicate BackgroundShows(e: Element, v: IconView)
    reads e
  {
    if v.Picture? then
      e.backgroundImage == (if CssUrlAccepted(v.url) then CssUrl(v.url) else "")
      && e.backgroundSize == "20px 20px"
      && e.backgroundPosition == "center" && e.backgroundRepeat == "no-repeat"
    else
      e.backgroundImage == "" && e.backgroundSize == ""
      && e.backgroundPosition == "" && e.backgroundRepeat == ""
  }

  const BUTTON_BASE_CLASSES: seq<string> := ["interactable", "secondary-button"]

  /** The rocket button's class list for `v`: the base classes and, for a
      glyph, the FontAwesome classes; with `primary` the colour matching has
      then swapped `secondary-button` for the send button's `primary-button`. */
  function ButtonClasses(v: IconView, primary: bool): seq<string> {
    var drawn := BUTTON_BASE_CLASSES + (if v.Glyph? then ["fa-solid", v.iconClass] else []);
    if primary then AddClass(RemoveClass(drawn, "secondary-button"), "primary-button") else drawn
  }

  /** The rocket button shows `v`: a glyph through its class list, a picture
      as its background, an unrecognised custom format as the text "?". */
  predicate ButtonShows(b: Element, v: IconView, primary: bool)
    reads b
  {
    BackgroundShows(b, v)
    && b.content == (if v.Unsupported? then "?" else "")
    && b.classes == ButtonClasses(v, primary)
  }

  /** The button keeps its FontAwesome glyph classes whatever the colour
      matching does, and carries exactly one of the two button styles. */
  lemma ButtonClassesKeepGlyph(v: IconView, primary: bool)
    requires v.Glyph? && v.iconClass !in ["secondary-button", "primary-button"]
    ensures "fa-solid" in ButtonClasses(v, primary) && v.iconClass in ButtonClasses(v, primary)
    ensures "interactable" in ButtonClasses(v, primary)
    ensures ("primary-button" in ButtonClasses(v, primary)) == primary
    ensures ("secondary-button" in ButtonClasses(v, primary)) == !primary
  {
    var drawn := BUTTON_BASE_CLASSES + ["fa-solid", v.iconClass];
    assert drawn == ["interactable", "secondary-button", "fa-solid", v.iconClass];
    if !primary {
      assert "primary-button" !in drawn;
    }
  }

  /** The markup the preview holds for `v`. */
  function PreviewHtml(v: IconView): string {
    match v
    case Glyph(c) => "<i class=\"fa-solid " + c + "\"></i>"
    case Picture(_) => ""
    case Missing => "<span>(无预览)</span>"
    case Unsupported => "<span>(格式不支持)</span>"
  }

  /** The preview shows `v`. */
  predicate PreviewShows(p: Element, v: IconView)
    reads p
  {
    BackgroundShows(p, v) && p.content == PreviewHtml(v)
  }

  /** The four background assignments every recognised format makes. The
      image is `url('...')` around the URL unescaped, which the style setter
      ignores when the URL holds a quote or a line break; the model counts a
      backslash as rejected too. */
  method ShowBackground(e: Element, url: string)
    modifies e`backgroundImage, e`backgroundSize, e`backgroundPosition, e`backgroundRepeat
    ensures e.backgroundImage == if CssUrlAccepted(url) then CssUrl(url) else old(e.backgroundImage)
    ensures e.backgroundSize == "20px 20px" && e.backgroundPosition == "center"
            && e.backgroundRepeat == "no-repeat"
  {
    if CssUrlAccepted(url) {
      e.backgroundImage := CssUrl(url);
    }
    e.backgroundSize := "20px 20px";
    e.backgroundPosition := "center";
    e.backgroundRepeat := "no-repeat";
  }

  /** As written, SVG markup whose encoding keeps a single quote (as
      `encodeURIComponent` does, for instance in `xmlns='...'`) is decided as
      a picture that is never shown: the style setter rejects its value. */
  lemma SingleQuotedSvgNotShown(content: string, encode: string -> string)
    requires IsSvgMarkup(content) && '\'' in encode(content)
    ensures ResolveCustom(content, encode) == SvgDataUrl(SVG_DATA_PREFIX + encode(content))
    ensures !CssUrlAccepted(SVG_DATA_PREFIX + encode(content))
  {
    SvgMarkupWins(content, encode);
    var k :| 0 <= k < |encode(content)| && encode(content)[k] == '\'';
    assert (SVG_DATA_PREFIX + encode(content))[|SVG_DATA_PREFIX| + k] == '\'';
  }

  /** As written, a direct image URL holding a single quote is used as typed
      and then rejected by the style setter. */
  lemma QuotedUrlNotShown(encode: string -> string)
    ensures ResolveCustom("http://x/it's.png", encode) == DirectUrl("http://x/it's.png")
    ensures !CssUrlAccepted("http://x/it's.png")
  {
    var url := "http://x/it's.png";
    assert !IsSvgMarkup(url) by {
      assert url[0] == 'h';
    }
    assert StartsWith(url, "http");
    assert CssStringSpecial(url[11]);
  }

  /** A character made safe for a single-quoted CSS string: the five special
      characters become their percent escapes, so the CSS value parses;
      every other character is kept. An SVG data URL, whose encoding leaves
      only the quote of the five, names the same image after the escape. An
      http URL may not: the URL parser reads a backslash as `/` and drops
      line breaks, but keeps `%5C`, `%0A` and `%0D` as written. */
  function PercentEscape(c: char): string {
    if c == '\'' then "%27"
    else if c == '\\' then "%5C"
    else if c == '\n' then "%0A"
    else if c == '\r' then "%0D"
    else if c == '\U{000C}' then "%0C"
    else [c]
  }

  /** The URL with every special character percent-escaped, as the corrected
      drawing code puts it into `url('...')`. */
  function CssSafeUrl(u: string): string {
    if u == [] then [] else PercentEscape(u[0]) + CssSafeUrl(u[1..])
  }

  /** The escaped URL is always accepted by the style setter, and the escape
      changes a URL exactly when the setter would have rejected it. */
  lemma {:induction false} CssSafeUrlAccepted(u: string)
    ensures CssUrlAccepted(CssSafeUrl(u))
    ensures CssSafeUrl(u) == u <==> CssUrlAccepted(u)
    ensures |CssSafeUrl(u)| >= |u|
  {
    if u != [] {
      CssSafeUrlAccepted(u[1..]);
      var head := PercentEscape(u[0]);
      var tail := CssSafeUrl(u[1..]);
      assert CssSafeUrl(u) == head + tail;
      assert CssUrlAccepted(head);
      assert CssUrlAccepted(head + tail) by {
        forall k | 0 <= k < |head + tail|
          ensures !CssStringSpecial((head + tail)[k])
        {
          if k >= |head| {
            assert (head + tail)[k] == tail[k - |head|];
          }
        }
      }
      assert CssUrlAccepted(u) <==> !CssStringSpecial(u[0]) && CssUrlAccepted(u[1..]) by {
        assert forall k :: 0 < k < |u| ==> u[k] == u[1..][k - 1];
      }
      if CssStringSpecial(u[0]) {
        assert |CssSafeUrl(u)| > |u|;
      } else if CssSafeUrl(u) == u {
        assert tail == CssSafeUrl(u)[1..] == u[1..];
      }
    }
  }

  /** The four background assignments with the image URL escaped: the
      picture is always shown. */
  method ShowBackgroundEscaped(e: Element, url: string)
    modifies e`backgroundImage, e`backgroundSize, e`backgroundPosition, e`backgroundRepeat
    ensures BackgroundShows(e, Picture(CssSafeUrl(url)))
    ensures e.backgroundImage == CssUrl(CssSafeUrl(url))
  {
    CssSafeUrlAccepted(url);
    ShowBackground(e, CssSafeUrl(url));
  }

  /** The format cascade both call sites run on the trimmed custom content:
      a recognised format becomes the element's background (the four
      properties having been cleared before), an unrecognised one puts
      `unrecognisedContent` into the element. */
  method DrawCustomIcon(e: Element, customContent: string, unrecognisedContent: string,
                        encode: string -> string)
    requires BackgroundShows(e, Unsupported)
    modifies e`content, e`backgroundImage, e`backgroundSize, e`backgroundPosition, e`backgroundRepeat
    ensures BackgroundShows(e, Shown(ResolveCustom(customContent, encode)))
    ensures e.content == if ResolveCustom(customContent, encode).Unrecognised?
                         then unrecognisedContent else old(e.content)
  {
    CascadeOrder(customContent, encode);
    if StartsWith(customContent, "<svg") && Includes(customContent, "</svg>") {
      var svgDataUrl := SVG_DATA_PREFIX + encode(customContent);
      ShowBackground(e, svgDataUrl);
    } else if StartsWith(customContent, "data:") || StartsWith(customContent, "http")
           || EndsWith(customContent, ".png") || EndsWith(customContent, ".jpg")
           || EndsWith(customContent, ".svg") || EndsWith(customContent, ".gif") {
      ShowBackground(e, customContent);
    } else if Includes(customContent, "base64,") {
      var imgUrl := customContent;
      if !StartsWith(customContent, "data:") {
        imgUrl := PNG_BASE64_PREFIX + SplitSecond(customContent, "base64,");
      }
      ShowBackground(e, imgUrl);
    } else {
      e.content := unrecognisedContent;
    }
  }

  /** updateIconDisplay: resets the rocket button, draws the icon the
      settings call for, and finally applies the colour matching's class
      swap. `sendButtonPrimary` says whether the host's send button exists
      and carries `primary-button`; the copied colours are not part of this
      model. */
  method UpdateIconDisplay(button: Element?, s: SettingsRecord, sendButtonPrimary: bool,
                           encode: string -> string)
    requires DisplayDefined(s.iconType, s.customIconUrl)
    modifies button
    ensures button != null ==>
              ButtonShows(button, DisplayIcon(s.iconType, s.customIconUrl, encode),
                          Truthy(s.matchButtonColors) && sendButtonPrimary)
    ensures button != null ==> button.display == old(button.display)
  {
    if button == null {
      return;
    }
    DrawButtonIcon(button, s, encode);
    MatchSendButtonClass(button, Truthy(s.matchButtonColors) && sendButtonPrimary);
  }

  /** The drawing part of updateIconDisplay, before the colour matching. */
  method DrawButtonIcon(button: Element, s: SettingsRecord, encode: string -> string)
    requires DisplayDefined(s.iconType, s.customIconUrl)
    modifies button
    ensures ButtonShows(button, DisplayIcon(s.iconType, s.customIconUrl, encode), false)
    ensures button.display == old(button.display)
  {
    var iconType := Or(s.iconType, Str(ICON_ROCKET));

    button.content := "";
    button.classes := ["interactable", "secondary-button"];
    button.backgroundImage := "";
    button.backgroundSize := "";
    button.backgroundPosition := "";
    button.backgroundRepeat := "";

    ghost var view := DisplayIcon(s.iconType, s.customIconUrl, encode);
    if iconType == Str(ICON_CUSTOM) && Truthy(s.customIconUrl) {
      var customContent := Trim(s.customIconUrl.s);
      assert view == Shown(ResolveCustom(customContent, encode));
      DrawCustomIcon(button, customContent, "?", encode);
    } else {
      var iconClass := IconClassFor(iconType);
      assert view == Glyph(iconClass);
      IconClassFallback(iconType);
      assert "fa-solid" !in BUTTON_BASE_CLASSES && iconClass !in BUTTON_BASE_CLASSES + ["fa-solid"];
      button.classes := AddClass(AddClass(button.classes, "fa-solid"), iconClass);
    }
  }

  /** The class swap of the colour matching: with `primary`, the button
      trades `secondary-button` for `primary-button`. */
  method MatchSendButtonClass(button: Element, primary: bool)
    modifies button`classes
    ensures button.classes
            == if primary then AddClass(RemoveClass(old(button.classes), "secondary-button"), "primary-button")
               else old(button.classes)
  {
    if primary {
      button.classes := RemoveClass(button.classes, "secondary-button");
      button.classes := AddClass(button.classes, "primary-button");
    }
  }

  /** updateIconPreview: resets the preview, then draws the icon for
      `iconType` and the record's custom URL. */
  method UpdateIconPreview(preview: Element?, iconType: JsValue, s: SettingsRecord, encode: string -> string)
    requires PreviewDefined(iconType, s.customIconUrl)
    modifies preview
    ensures preview != null ==> PreviewShows(preview, PreviewIcon(iconType, s.customIconUrl, encode))
    ensures preview != null ==> preview.classes == old(preview.classes) && preview.display == old(preview.display)
  {
    if preview == null {
      return;
    }
    preview.content := "";
    preview.backgroundImage := "";
    preview.backgroundSize := "";
    preview.backgroundPosition := "";
    preview.backgroundRepeat := "";

    if iconType == Str(ICON_CUSTOM) {
      var customContent := if s.customIconUrl.Str? then Trim(s.customIconUrl.s) else "";
      if customContent == "" {
        preview.content := "<span>(无预览)</span>";
        return;
      }
      DrawCustomIcon(preview, customContent, "<span>(格式不支持)</span>", encode);
    } else {
      var iconClass := IconClassFor(iconType);
      preview.content := "<i class=\"fa-solid " + iconClass + "\"></i>";
    }
  }

  // ---------------------------------------------------------------------
  // The handlers
  // ---------------------------------------------------------------------

  /** The first part of saveSettings: each existing control is copied into
      its field. */
  method ResyncFromPanel(s: SettingsRecord, panel: Panel)
    modifies s
    ensures s.Value() == Resync(old(s.Value()), panel.Readings())
  {
    if panel.enabledSelect.Some? { s.enabled := Bool(panel.enabledSelect.value == "true"); }
    if panel.iconTypeSelect.Some? { s.iconType := Str(panel.iconTypeSelect.value); }
    if panel.customIconInput.Some? { s.customIconUrl := Str(panel.customIconInput.value); }
    if panel.colorMatchBox.Some? { s.matchButtonColors := Bool(panel.colorMatchBox.value); }
  }

  /** saveSettings as written: re-syncs the record from the existing
      controls, then saves it through the host's hook, catching its
      exception, or to local storage, where an exception escapes. The record
      keeps the re-sync however the save ends. */
  method SaveSettings(s: SettingsRecord, panel: Panel, host: Host) returns (outcome: SaveOutcome)
    modifies s
    ensures s.Value() == Resync(old(s.Value()), panel.Readings())
    ensures outcome == SaveResult(host)
  {
    ResyncFromPanel(s, panel);
    match host
    case HostSaveHook(throws) =>
      outcome := if throws then Failed else Saved;
    case LocalStorageOnly(throws) =>
      outcome := if throws then Threw else Saved;
  }

  /** saveSettings with the local-storage write in a `try` like the hook's. */
  method SaveSettingsGuarded(s: SettingsRecord, panel: Panel, host: Host) returns (outcome: SaveOutcome)
    modifies s
    ensures s.Value() == Resync(old(s.Value()), panel.Readings())
    ensures outcome == GuardedSaveResult(host)
  {
    ResyncFromPanel(s, panel);
    outcome := if host.throws then Failed else Saved;
  }

  /** The id dispatch of handleSettingsChange: writes the target's field,
      shows or hides the button and closes the menu for the enabled
      dropdown, toggles the custom-URL row and redraws the preview for icon
      changes. Any other id, the upload input's included, does nothing here. */
  method WriteTarget(t: Target, s: SettingsRecord, st: SharedState,
                     preview: Element?, container: Element?, encode: string -> string)
    requires t.id == ID_ICON_TYPE_DROPDOWN ==> PreviewDefined(Str(t.value), s.customIconUrl)
    requires preview != null ==> preview != st.rocketButton
    requires container != null ==> container != st.rocketButton && container != preview
    modifies s, st, st.rocketButton, preview, (if container == null then {} else {container})`display
    ensures s.Value() == OwnWrite(old(s.Value()), t)
    ensures if t.id == ID_SETTINGS_ENABLED_DROPDOWN && t.value != "true"
            then !st.menuVisible && st.InSync() && st.renderCount == old(st.renderCount) + 1
            else st.menuVisible == old(st.menuVisible) && st.shownVisible == old(st.shownVisible)
                 && st.renderCount == old(st.renderCount)
    ensures st.rocketButton != null ==>
              if t.id == ID_SETTINGS_ENABLED_DROPDOWN
              then st.rocketButton.display == (if t.value == "true" then "" else "none")
                   && st.rocketButton.content == old(st.rocketButton.content)
                   && st.rocketButton.classes == old(st.rocketButton.classes)
                   && st.rocketButton.backgroundImage == old(st.rocketButton.backgroundImage)
                   && st.rocketButton.backgroundSize == old(st.rocketButton.backgroundSize)
                   && st.rocketButton.backgroundPosition == old(st.rocketButton.backgroundPosition)
                   && st.rocketButton.backgroundRepeat == old(st.rocketButton.backgroundRepeat)
              else unchanged(st.rocketButton)
    ensures preview != null ==>
              if t.id == ID_ICON_TYPE_DROPDOWN then
                PreviewShows(preview, PreviewIcon(Str(t.value), old(s.customIconUrl), encode))
              else if t.id == ID_CUSTOM_ICON_URL && old(s.iconType) == Str(ICON_CUSTOM) then
                PreviewShows(preview, PreviewIcon(Str(ICON_CUSTOM), Str(t.value), encode))
              else unchanged(preview)
    ensures preview != null ==> preview.classes == old(preview.classes) && preview.display == old(preview.display)
    ensures container != null ==>
              if t.id == ID_ICON_TYPE_DROPDOWN then container.display == (if t.value == ICON_CUSTOM then "flex" else "none")
              else unchanged(container)
  {
    Constants.SettingsIdsDerived();
    if t.id == ID_SETTINGS_ENABLED_DROPDOWN {
      var isEnabled := t.value == "true";
      s.enabled := Bool(isEnabled);
      if st.rocketButton != null {
        st.rocketButton.display := if isEnabled then "" else "none";
      }
      if !isEnabled {
        st.SetMenuVisible(false);
        st.UpdateMenuVisibilityUI();
      }
    } else if t.id == ID_ICON_TYPE_DROPDOWN {
      var iconType := t.value;
      s.iconType := Str(iconType);
      if container != null {
        container.display := if iconType == ICON_CUSTOM then "flex" else "none";
      }
      UpdateIconPreview(preview, Str(iconType), s, encode);
    } else if t.id == ID_CUSTOM_ICON_URL {
      var url := t.value;
      s.customIconUrl := Str(url);
      if s.iconType == Str(ICON_CUSTOM) {
        UpdateIconPreview(preview, Str(ICON_CUSTOM), s, encode);
      }
    } else if t.id == ID_COLOR_MATCH_CHECKBOX {
      s.matchButtonColors := Bool(t.checked);
    }
  }

  /** handleSettingsChange: the id dispatch, then, unless the target is the
      upload input (whose branch returns at once), the button redraw and the
      save. */
  method HandleSettingsChange(t: Target, s: SettingsRecord, panel: Panel, st: SharedState,
                              preview: Element?, container: Element?, host: Host,
                              sendButtonPrimary: bool, encode: string -> string)
    returns (saved: Option<SaveOutcome>)
    requires ChangeDefined(s.Value(), t)
    requires preview != null ==> preview != st.rocketButton
    requires container != null ==> container != st.rocketButton && container != preview
    modifies s, st, st.rocketButton, preview, (if container == null then {} else {container})`display
    ensures s.Value() == ChangeEffect(old(s.Value()), t, panel.Readings())
    ensures saved == if t.id == ID_ICON_FILE_UPLOAD then None else Some(SaveResult(host))
    ensures if t.id == ID_SETTINGS_ENABLED_DROPDOWN && t.value != "true"
            then !st.menuVisible && st.InSync() && st.renderCount == old(st.renderCount) + 1
            else st.menuVisible == old(st.menuVisible) && st.shownVisible == old(st.shownVisible)
                 && st.renderCount == old(st.renderCount)
    ensures st.rocketButton != null ==>
              st.rocketButton.display
              == if t.id == ID_SETTINGS_ENABLED_DROPDOWN then (if t.value == "true" then "" else "none")
                 else old(st.rocketButton.display)
    ensures var w := OwnWrite(old(s.Value()), t);
            t.id != ID_ICON_FILE_UPLOAD && st.rocketButton != null ==>
              ButtonShows(st.rocketButton, DisplayIcon(w.iconType, w.customIconUrl, encode),
                          Truthy(w.matchButtonColors) && sendButtonPrimary)
    ensures t.id == ID_ICON_FILE_UPLOAD && st.rocketButton != null ==> unchanged(st.rocketButton)
    ensures preview != null ==>
              if t.id == ID_ICON_TYPE_DROPDOWN then
                PreviewShows(preview, PreviewIcon(Str(t.value), old(s.customIconUrl), encode))
              else if t.id == ID_CUSTOM_ICON_URL && old(s.iconType) == Str(ICON_CUSTOM) then
                PreviewShows(preview, PreviewIcon(Str(ICON_CUSTOM), Str(t.value), encode))
              else unchanged(preview)
    ensures preview != null ==> preview.classes == old(preview.classes) && preview.display == old(preview.display)
    ensures container != null ==>
              if t.id == ID_ICON_TYPE_DROPDOWN then container.display == (if t.value == ICON_CUSTOM then "flex" else "none")
              else unchanged(container)
  {
    WriteTarget(t, s, st, preview, container, encode);
    if t.id == ID_ICON_FILE_UPLOAD {
      return None;
    }
    UpdateIconDisplay(st.rocketButton, s, sendButtonPrimary, encode);
    var outcome := SaveSettings(s, panel, host);
    saved := Some(outcome);
  }

  /** The icon redraws of loadAndApplySettings can run without `trim`
      throwing. */
  predicate LoadDefined(s: SettingsValue) {
    var d := Defaulted(s);
    PreviewDefined(d.iconType, d.customIconUrl)
  }

  /** The four defaulting statements of loadAndApplySettings; the styles
      are defaulted last, by ApplyMenuStyles. */
  method ApplyDefaults(s: SettingsRecord)
    modifies s`enabled, s`iconType, s`customIconUrl, s`matchButtonColors
    ensures s.Value() == Defaulted(old(s.Value())).(menuStyles := old(s.menuStyles))
  {
    s.enabled := Bool(s.enabled != Bool(false));
    s.iconType := Or(s.iconType, Str(ICON_ROCKET));
    s.customIconUrl := Or(s.customIconUrl, Str(""));
    s.matchButtonColors := Bool(s.matchButtonColors != Bool(false));
  }

  /** The part of loadAndApplySettings that pushes the record into the
      controls that exist, showing the custom-URL row only for the custom
      type when the icon-type dropdown exists. */
  method PushToPanel(s: SettingsRecord, panel: Panel, container: Element?)
    modifies panel, (if container == null then {} else {container})`display
    ensures panel.Readings() == Pushed(s.Value(), old(panel.Readings()))
    ensures container != null ==>
              if old(panel.iconTypeSelect).Some? then
                container.display == (if s.iconType == Str(ICON_CUSTOM) then "flex" else "none")
              else unchanged(container)
  {
    if panel.enabledSelect.Some? {
      panel.enabledSelect := Some(SelectValue(ENABLED_OPTIONS, ToString(s.enabled)));
    }
    if panel.iconTypeSelect.Some? {
      panel.iconTypeSelect := Some(SelectValue(ICON_TYPES, ToString(s.iconType)));
      if container != null {
        container.display := if s.iconType == Str(ICON_CUSTOM) then "flex" else "none";
      }
    }
    if panel.customIconInput.Some? {
      panel.customIconInput := Some(StripNewlines(ToString(s.customIconUrl)));
    }
    if panel.colorMatchBox.Some? {
      panel.colorMatchBox := Some(Truthy(s.matchButtonColors));
    }
  }

  /** loadAndApplySettings: defaults the record, pushes it into the existing
      controls, draws the preview and the button (hiding the button when the
      plugin is disabled), and finally either lets the style panel refresh
      (`updateMenuStylesUI`, when available and styles exist) or installs the
      default styles. Returns whether `updateMenuStylesUI` was called. */
  method LoadAndApplySettings(s: SettingsRecord, panel: Panel, st: SharedState,
                              preview: Element?, container: Element?,
                              stylesUiAvailable: bool, sendButtonPrimary: bool,
                              encode: string -> string)
    returns (stylesUiCalled: bool)
    requires LoadDefined(s.Value())
    requires preview != null ==> preview != st.rocketButton
    requires container != null ==> container != st.rocketButton && container != preview
    modifies s, panel, st.rocketButton, preview, (if container == null then {} else {container})`display
    ensures s.Value() == Defaulted(old(s.Value()))
    ensures panel.Readings() == Pushed(s.Value(), old(panel.Readings()))
    ensures preview != null ==> PreviewShows(preview, PreviewIcon(s.iconType, s.customIconUrl, encode))
    ensures preview != null ==> preview.classes == old(preview.classes) && preview.display == old(preview.display)
    ensures st.rocketButton != null ==>
              ButtonShows(st.rocketButton, DisplayIcon(s.iconType, s.customIconUrl, encode),
                          Truthy(s.matchButtonColors) && sendButtonPrimary)
              && st.rocketButton.display == (if s.enabled == Bool(false) then "none" else old(st.rocketButton.display))
    ensures container != null ==>
              if old(panel.iconTypeSelect).Some? then
                container.display == (if s.iconType == Str(ICON_CUSTOM) then "flex" else "none")
              else unchanged(container)
    ensures stylesUiCalled <==> stylesUiAvailable && Truthy(old(s.menuStyles))
  {
    ghost var d := Defaulted(s.Value());
    ApplyDefaults(s);

    PushToPanel(s, panel, container);
    assert panel.Readings() == Pushed(d, old(panel.Readings()));

    DisplayMatchesPreview(d.iconType, d.customIconUrl, encode);
    ShowLoadedIcon(s, st, preview, sendButtonPrimary, encode);

    stylesUiCalled := ApplyMenuStyles(s, stylesUiAvailable);
  }

  /** The drawing steps of loadAndApplySettings: the preview for the stored
      type, the button hidden when the plugin is disabled, then the button's
      icon. */
  method ShowLoadedIcon(s: SettingsRecord, st: SharedState, preview: Element?, sendButtonPrimary: bool,
                        encode: string -> string)
    requires PreviewDefined(s.iconType, s.customIconUrl) && DisplayDefined(s.iconType, s.customIconUrl)
    requires preview != null ==> preview != st.rocketButton
    modifies st.rocketButton, preview
    ensures preview != null ==> PreviewShows(preview, PreviewIcon(s.iconType, s.customIconUrl, encode))
    ensures preview != null ==> preview.classes == old(preview.classes) && preview.display == old(preview.display)
    ensures st.rocketButton != null ==>
              ButtonShows(st.rocketButton, DisplayIcon(s.iconType, s.customIconUrl, encode),
                          Truthy(s.matchButtonColors) && sendButtonPrimary)
              && st.rocketButton.display == (if !Truthy(s.enabled) then "none" else old(st.rocketButton.display))
  {
    UpdateIconPreview(preview, s.iconType, s, encode);
    if !Truthy(s.enabled) && st.rocketButton != null {
      st.rocketButton.display := "none";
    }
    UpdateIconDisplay(st.rocketButton, s, sendButtonPrimary, encode);
  }

  /** The last step of loadAndApplySettings: the style panel refreshes
      itself from existing styles when `updateMenuStylesUI` is available;
      missing styles are replaced by the defaults. Returns whether
      `updateMenuStylesUI` was called. */
  method ApplyMenuStyles(s: SettingsRecord, stylesUiAvailable: bool) returns (stylesUiCalled: bool)
    modifies s`menuStyles
    ensures s.menuStyles == Or(old(s.menuStyles), DEFAULT_MENU_STYLES)
    ensures stylesUiCalled <==> stylesUiAvailable && Truthy(old(s.menuStyles))
  {
    stylesUiCalled := false;
    if stylesUiAvailable && Truthy(s.menuStyles) {
      stylesUiCalled := true;
    } else if !Truthy(s.menuStyles) {
      s.menuStyles := DEFAULT_MENU_STYLES;
    }
  }
}
