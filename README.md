# Quick-reply menu plugin: settings, icon and menu-visibility model

This project models the core of the quick-reply menu chat-UI extension. It puts a rocket button next to the chat input. Clicking the button opens a menu of quick replies, and a settings panel chooses the button's icon. The model covers:

- **The icon decision.**
  - The button (`updateIconDisplay`) and the settings preview (`updateIconPreview`) both draw either a FontAwesome glyph from the icon-type table or a custom icon.
  - A custom icon is the user's text, trimmed and then classified by an ordered format cascade:
    1. inline SVG markup becomes a percent-encoded SVG data URL;
    2. a URL, data URI or image file name is used verbatim;
    3. a partial base64 payload gets a PNG data-URL prefix;
    4. anything else is "unsupported".
  - The cascade is a pure function (`IconResolver.ResolveCustom`). The two drawing methods are proved to put its result into their element.
  - A picture is drawn by assigning `url('…')` to the element's background image. The style setter ignores a value that does not parse, as when the URL holds a single quote or a line break; the element then shows nothing. The model also counts a backslash as rejected (see "## Left out").
- **The settings record and its panel.**
  - The record is the stored settings object, updated in place. Each field holds whatever value was stored: undefined, null, a boolean, an integer, a string, an array of such values, or an object that the model keeps opaque.
  - The panel holds the enabled dropdown, the icon-type dropdown, the custom-URL input and the colour-match checkbox. Each may be absent.
  - The operations are:
    - the change handler's dispatch on the control's id;
    - the save routine, which first copies each existing control into the record and then saves. It uses the host's hook when there is one, and its exception is caught. Otherwise it uses local storage, and an exception there escapes;
    - the load routine, which defaults missing or falsy fields, pushes the record into the controls, redraws the icons and installs default menu styles when there are none.
  - Assigning a select element a value that none of its options has makes its value the empty string. Assigning a text input a value strips its line feeds and carriage returns.
- **The menu-visibility state machine** over the shared `menuVisible` flag. Each transition is followed by a render of the flag:
  - the rocket-button toggle;
  - the document-wide outside click, which closes the menu under a guard;
  - the quick-reply item click, which triggers the reply and closes the menu.
- **The follow-theme checkbox**, which disables or enables every colour picker and opacity slider.
- **The constants**: the extension name, the element ids derived from it, the icon types and the icon-type-to-class table.

JavaScript values are modelled by `JsValues.JsValue`, with the language's truthiness, `||` and `String()`. The string methods the cascade uses (`trim`, `startsWith`, `endsWith`, `includes`, `indexOf` and `split(sep)[1]`) are in `JsStrings`. The lemmas `TrimShape`, `IndexOfFound`, `IndexOfSpec`, `SplitSecondSpan` and `SplitSecondHasNoSeparator` characterise them. Foreign calls become parameters:
- `encodeURIComponent` is a function parameter `encode`;
- how the promise of `triggerQuickReply` settles is a `Settlement` parameter;
- whether the host's save hook exists, and whether the save call throws, is a `Host` parameter;
- whether the host's send button carries `primary-button` is a boolean parameter;
- whether `updateMenuStylesUI` exists is a boolean parameter.

A click target is given as its chain of ancestors, the target first. `node.contains(target)` is membership in that chain.

## Model

| member | source | states |
|---|---|---|
| JsValues.ToString | settings.js:490 | `String(v)`: the value a select receives and the key a table lookup uses; an array becomes its elements' strings joined by commas; IconTypeKeys and ArrayKeySample characterise it |
| JsValues.Or | settings.js:14 | `a \|\| b` is `a` when `a` is truthy and `b` otherwise |
| JsStrings.TrimStartSpec | settings.js:26 | the result is a suffix of the input; everything cut off is JavaScript white space; the result does not start with white space |
| JsStrings.TrimEndSpec | settings.js:26 | the result is a prefix of the input; everything cut off is white space; the result does not end in white space |
| JsStrings.TrimShape | settings.js:258 | `trim()` is a slice of the input with only white space outside it and no white space at either end of the slice |
| JsStrings.TrimIdempotent | settings.js:258 | trimming an already trimmed string changes nothing |
| JsStrings.IndexOf | settings.js:29 | `indexOf` (behind `includes`) returns -1 or an index at which the pattern fits; IndexOfFound and IndexOfSpec characterise it |
| JsStrings.IndexOfFound | settings.js:29 | a result other than -1 is an index where the pattern occurs |
| JsStrings.IndexOfSpec | settings.js:29 | the pattern occurs nowhere before the result, and nowhere at all when the result is -1 |
| JsStrings.SplitSecondSpan | settings.js:53 | `split('base64,')[1]` is the text that starts right after the first marker and runs up to the next marker that starts after it, or to the end when there is none; no marker starts inside it |
| JsStrings.SplitSecondHasNoSeparator | settings.js:53 | `split('base64,')[1]` contains no marker |
| Constants.IconTypesDistinct | constants.js:34-40 | there are five icon types, pairwise distinct |
| Constants.IconClassMapTable | constants.js:43-49 | the class table's keys are exactly the icon types; each built-in type maps to its FontAwesome class and `custom` maps to the empty class |
| Constants.SettingsIdsDerived | constants.js:3-17 | every settings id is the extension name plus a suffix; the four control ids and the upload input's id are pairwise distinct, so the change handler's dispatch takes one branch |
| Dom.AddClass | settings.js:67 | `classList.add` keeps every class, adds the new one, and appends it only when it was missing |
| Dom.RemoveClass | settings.js:83 | `classList.remove` drops exactly the named class and keeps the others |
| IconResolver.ResolveCustom | settings.js:29-63 | the format cascade over the trimmed custom content, first matching rule wins; CascadeOrder and the lemmas after it characterise it |
| IconResolver.CascadeOrder | settings.js:29-63 | each cascade outcome happens exactly when its rule is the first one whose test matches (one iff per outcome) |
| IconResolver.SvgMarkupWins | settings.js:29-31 | SVG markup always becomes the SVG data-URL prefix followed by the encoded markup, even if it also ends in `.svg` or contains `base64,` |
| IconResolver.DirectReferenceVerbatim | settings.js:37-44 | a URL, data URI or image file name that is not SVG markup is used as typed |
| IconResolver.Base64PayloadSynthesized | settings.js:49-55 | in the base64 rule the content never starts with `data:`, so the "keep as is" branch is dead and the result is always the PNG prefix plus the payload after the first marker |
| IconResolver.ResolvedUrlKinds | settings.js:29-58 | every recognised outcome is an SVG data URL, the content itself, or a PNG base64 data URL |
| IconResolver.EmptyContentUnrecognised | settings.js:59-62 | empty content matches no rule |
| IconResolver.SvgSample | settings.js:29-31 | `<svg></svg>` becomes the SVG data-URL prefix followed by its encoding |
| IconResolver.UrlSample | settings.js:37-44 | `https://x/icon.png` is used verbatim |
| IconResolver.PlainTextSample | settings.js:29-63 | `plain-text` matches no rule and is unsupported |
| IconResolver.NoBase64Marker | settings.js:49 | text without a comma never takes the base64 rule |
| IconResolver.IconClassFor | settings.js:66 | `ICON_CLASS_MAP[iconType] \|\| ICON_CLASS_MAP[ROCKET]`, looked up by the value's string form; IconClassFallback characterises it |
| IconResolver.IconClassFallback | settings.js:66 | a value whose string form is comment, star or bolt gets that type's class; every other value (rocket, custom, unknown, falsy) gets `fa-rocket`; the result is always one of the four glyph classes |
| IconResolver.IconTypeKeys | settings.js:490 | a stored value converts to the name of an icon type exactly when it is that name or an array whose single element converts to it; no boolean, number, null, undefined, plain object or longer array does |
| IconResolver.ArrayKeySample | settings.js:66 | the stored array `["star"]` looks up `fa-star`, as `String(["star"])` is `"star"` |
| IconResolver.DisplayIcon | settings.js:14-66 | what the button shows: the class-table glyph, or the cascade on the trimmed URL for the custom type with a truthy URL; DisplayMatchesPreview and NoEmptyGlyph characterise it |
| IconResolver.PreviewIcon | settings.js:257-301 | what the preview shows: "no preview" for blank custom content, else the cascade or the class-table glyph; DisplayMatchesPreview and NoEmptyGlyph characterise it |
| IconResolver.DisplayMatchesPreview | settings.js:25-26 | the button and the preview show the same icon exactly when the type is not custom with a blank URL. In that case the preview says "no preview", and the button shows the rocket for an empty URL and "?" for a whitespace-only one |
| IconResolver.NoEmptyGlyph | settings.js:66 | the button never draws the empty class that the table holds for the custom type, whenever its decision is defined; nor does the preview, whenever its own is |
| Settings.Defaulted | settings.js:476-530 | the record after loading's defaulting; DefaultingRules, DefaultingFixedPoints and DefaultingIdempotent characterise it |
| Settings.DefaultingRules | settings.js:476-530 | after loading, both flags are booleans that are false only for a stored `false`; a falsy icon type becomes rocket, a falsy URL becomes the empty string, falsy styles become the defaults, and truthy values are kept |
| Settings.DefaultingFixedPoints | settings.js:476-530 | defaulting always yields a record in loaded shape, and leaves a record unchanged exactly when it is already in that shape |
| Settings.DefaultingIdempotent | settings.js:476-530 | defaulting twice gives the same record as defaulting once |
| Settings.SelectValue | settings.js:490 | assigning a select element's value selects that option if it exists, and the empty value exactly when it does not |
| Settings.StripNewlines | settings.js:499-503 | assigning a text input's value keeps every character except line feeds and carriage returns, and none of those |
| Settings.StripNewlinesIdentity | settings.js:499-503 | the text input keeps an assigned string unchanged exactly when it holds no line break |
| Settings.Pushed | settings.js:482-509 | the controls after loading pushed the record into those that exist; PushToPanel is proved against it and SaveAfterLoad states what reading them back gives |
| Settings.LoadIdempotent | settings.js:473-509 | pushing the record a second time, after a second defaulting, leaves the controls as the first push left them |
| Settings.SaveAfterLoad | settings.js:406-409 | saving right after loading gives back the loaded record exactly when the icon type is a known option (or its dropdown is absent) and the URL is a string without line breaks (or its input is absent). The icon type is read back as its string form when that names an option, and as "" otherwise |
| Settings.Resync | settings.js:406-409 | the record after the save's re-sync from the existing controls; ResyncProperties characterises it |
| Settings.ResyncProperties | settings.js:406-409 | the save's re-sync overwrites a field only when its control exists and never touches the styles. It leaves the record agreeing with the controls, changes nothing when they already agree, and is idempotent |
| Settings.SaveResult | settings.js:412-426 | how saveSettings ends as written: true, false when the host's hook throws, and a thrown exception when the local-storage write throws; StorageFailureEscapes characterises it |
| Settings.StorageFailureEscapes | settings.js:412-426 | as written, saveSettings returns true exactly when the save call does not throw, and throws exactly when the local-storage write throws |
| Settings.GuardedSaveResult | settings.js:413-420 | how saveSettings ends with the local-storage write caught like the hook's; GuardedSaveNeverThrows characterises it |
| Settings.GuardedSaveNeverThrows | settings.js:413-420 | guarded, saveSettings never throws, returns true exactly when the save call succeeds, and agrees with the code as written whenever that does not throw |
| Settings.OwnWrite | settings.js:344-382 | the field write of the handler's branch for the target's id; OwnWriteOnlyItsField characterises it |
| Settings.OwnWriteOnlyItsField | settings.js:344-381 | each control's branch writes its own field with the control's value and no other field; any other id writes nothing |
| Settings.ChangeEffect | settings.js:339-393 | the handler's whole effect on the record: nothing for the upload input, else the branch write followed by the re-sync; ChangeTouchesOnlyTarget characterises it |
| Settings.ChangeTouchesOnlyTarget | settings.js:339-393 | when the record agrees with every control except the one that changed, and the event comes from that control, the whole change (the branch write plus the save's re-sync) writes only the target's field, with the control's new value, and afterwards the record agrees with every control |
| Settings.IconTypeChangeSample | settings.js:357-359 | switching the icon-type dropdown from rocket to star, with the other controls in agreement, meets ChangeTouchesOnlyTarget's condition and changes the record's icon type to star and nothing else |
| Settings.ButtonClassesKeepGlyph | settings.js:67-85 | with or without the colour matching's class swap, the button keeps its glyph classes and carries exactly one of `primary-button` and `secondary-button` |
| Settings.ShowBackground | settings.js:32-35 | the size, position and repeat are set to 20px, centred and not repeated; the image becomes `url('…')` around the URL when the model's setter rule accepts it (no quote, line break or, as the model approximates, backslash in the URL) and otherwise keeps its old value |
| Settings.SingleQuotedSvgNotShown | settings.js:29-32 | as written, SVG markup whose encoding keeps a single quote is decided as an SVG data URL that the style setter rejects, so no picture is shown |
| Settings.QuotedUrlNotShown | settings.js:37-44 | as written, the direct URL `http://x/it's.png` is used as typed and the style setter rejects it |
| Settings.CssSafeUrl | settings.js:32 | the corrected image URL: the quote, backslash and line-break characters percent-escaped, so the CSS value parses (for an SVG data URL it names the same image); CssSafeUrlAccepted characterises it |
| Settings.CssSafeUrlAccepted | settings.js:32 | the escaped URL is always accepted by the style setter, and escaping changes a URL exactly when the setter would have rejected it |
| Settings.ShowBackgroundEscaped | settings.js:32-35 | with the URL escaped, the four assignments always show the picture |
| Settings.DrawCustomIcon | settings.js:29-63 | the cascade, run on an element with cleared background, shows the cascade's result: a picture as the background (left cleared when the style setter rejects its URL), or the given unsupported content |
| Settings.UpdateIconDisplay | settings.js:9-87 | the button ends up showing the icon the settings decide (a picture whose URL the style setter rejects leaves the button blank), including the colour matching's class swap; its `display` is left alone |
| Settings.DrawButtonIcon | settings.js:14-68 | after the reset, the button shows the decided icon with the base classes; a picture whose URL the style setter rejects leaves it blank |
| Settings.MatchSendButtonClass | settings.js:82-85 | when the send button is a primary button, `secondary-button` is replaced by `primary-button`; otherwise the classes are untouched |
| Settings.UpdateIconPreview | settings.js:246-303 | the preview ends up showing the icon the given type decides (no preview, unsupported, a picture or a glyph; a picture whose URL the style setter rejects leaves it blank); its classes and `display` are left alone |
| Settings.ResyncFromPanel | settings.js:401-409 | each existing control is copied into its field: the record becomes the re-sync of the old record with the controls |
| Settings.SaveSettings | settings.js:396-427 | the record becomes the re-sync of the old record with the existing controls however the save ends; the outcome is the as-written one (false on a throwing hook, an escaping exception on a throwing local-storage write) |
| Settings.SaveSettingsGuarded | settings.js:396-427 | the same re-sync, with the outcome of the guarded save, which never throws |
| Settings.WriteTarget | settings.js:344-385 | the target's branch writes its field. For the enabled dropdown it shows or hides the button, and on "disable" closes the menu and renders it. For icon changes it redraws the preview and toggles the custom-URL row, of which only `display` may change. The preview's classes and `display`, every other element and the visibility are unchanged |
| Settings.HandleSettingsChange | settings.js:339-393 | the record becomes the branch write followed by the save's re-sync; the upload input changes nothing and saves nothing; the menu closes (and is rendered) exactly on "disable"; otherwise the button shows the icon of the written record, and the handler ends as the save does (an exception from the local-storage write escapes it). The preview is redrawn only for icon changes, and its classes and `display` never change; of the custom-URL row only `display` may change |
| Settings.ApplyDefaults | settings.js:476-479 | the four defaulting statements give each of the four fields its defaulted value and leave the styles alone |
| Settings.PushToPanel | settings.js:482-509 | each existing control shows its field. A dropdown shows "" for a value it has no option for, and the custom-URL input shows the URL without line breaks. The custom-URL row is shown only for the custom type, and only when the type dropdown exists; of that row only `display` may change |
| Settings.ShowLoadedIcon | settings.js:514-523 | the preview and the button show the loaded icon, and the button is hidden when the plugin is disabled; the preview's classes and `display` are left alone |
| Settings.ApplyMenuStyles | settings.js:526-530 | missing styles become the defaults and existing ones are kept; the style refresh is called exactly when it is available and styles exist |
| Settings.LoadAndApplySettings | settings.js:471-531 | the record becomes its defaulted form; the controls (with the text input's line breaks stripped), the preview and the button show it; the button is hidden when the plugin is disabled; the preview's classes and `display` are left alone, and of the custom-URL row only `display` may change; the style refresh is called exactly when it is available and styles were stored |
| Events.Toggle | events.js:12 | a rocket-button click always changes the visibility |
| Events.ToggleTwice | events.js:11-14 | two clicks on the rocket button restore the visibility |
| Events.HandleRocketButtonClick | events.js:11-14 | the visibility is negated and then rendered (screen in sync, one render) |
| Events.OutsideClickOnlyCloses | events.js:20-31 | an outside click never opens the menu; while the menu is closed it does nothing; it changes the visibility exactly when its guard holds |
| Events.TargetTestRedundant | events.js:24-26 | the guard's test that the target is not the button itself adds nothing to the test that the button does not contain the target |
| Events.ButtonClickTogglesOnce | events.js:11-31 | a click on the button (or inside it) runs the toggle and then the document handler, and the two together flip the visibility exactly once. A click outside both the menu and the button closes an open menu |
| Events.AfterOutsideClick | events.js:20-31 | the visibility after an outside click; OutsideClickOnlyCloses, TargetTestRedundant and ButtonClickTogglesOnce characterise it |
| Events.HandleOutsideClick | events.js:20-31 | the visibility becomes the guarded close; it is rendered only when the guard holds, and nothing changes otherwise |
| Events.ItemClickAsWritten | events.js:38-55 | the effect of an item click as written; TriggerCalledOnlyWithData, RejectedTriggerLeavesMenuOpen and AsWrittenClosesUnlessRejected characterise it |
| Events.ItemClickClosing | events.js:52-54 | the effect of an item click with the close in a `finally`; ItemClickAlwaysCloses characterises it |
| Events.TriggerCalledOnlyWithData | events.js:43-50 | a missing or empty set name or label never reaches the trigger and closes the menu; present data calls the trigger exactly once with the item's values |
| Events.RejectedTriggerLeavesMenuOpen | events.js:50-54 | as written, an open menu whose item trigger rejects stays open and is not rendered |
| Events.AsWrittenClosesUnlessRejected | events.js:43-54 | as written, the menu is closed after an item click exactly when it was closed already, the data is missing, or the trigger fulfils |
| Events.ItemClickAlwaysCloses | events.js:52-54 | with the close run whatever the trigger's outcome, every item click closes the menu with one render, and the handler rejects exactly when the trigger does |
| Events.HandleQuickReplyClick | events.js:38-55 | the triggers made, the new visibility, the renders and the rejection are those of the as-written item click; the screen is in sync unless the trigger rejected, and then it still shows what it showed before |
| Events.HandleQuickReplyClickClosing | events.js:38-55 | the triggers made, the new visibility, the renders and the rejection are those of the corrected item click; the screen is always in sync |
| Events.ApplyFollowTheme | events.js:107-112 | every picker and slider ends up disabled exactly when the checkbox is checked; their values are unchanged |

## Left out

- Settings.UpdateIconDisplay: a truthy customIconUrl that is not a string makes `trim` throw a TypeError. The method requires a string there (`DisplayDefined`) instead of modelling the exception.
- Settings.UpdateIconPreview: the same TypeError for a non-string that is not null or undefined; the method requires `PreviewDefined`.
- Settings.HandleSettingsChange: it inherits these requirements through `ChangeDefined` and does not model the exception.
- Settings.LoadAndApplySettings: it inherits these requirements through `LoadDefined` and does not model the exception.
- IconResolver.IconClassFor: an icon type that names an inherited object property (`constructor`, `toString`) looks up a function in the source's class table, and that function is truthy. In the source, `classList.add` then gets that function's `String()` text, which holds spaces, and throws an InvalidCharacterError; the preview instead writes that text into its glyph's class attribute. The model treats such a type as unknown and falls back to `fa-rocket`.
- Settings.ShowBackground: the browser's CSS parser is reduced to one rule: `url('…')` is rejected when the URL holds a single quote, a backslash or a line break. The browser in fact accepts a backslash escape (and then loads a different URL), and a quote that happens to close a valid image list such as `a'), url('b`. Both are treated as rejected.
- Settings.UpdateIconDisplay: the colours copied from the send button's computed style are not modelled (that needs a style engine); only the class swap is.
- Objects other than arrays are opaque: their properties and their own `toString` are not modelled, so `String()` of one is `[object Object]`.
- Numbers in stored settings are integers: NaN, infinities, fractions and -0 only change what `String()` produces, and are not modelled.
- Strings are sequences of Unicode scalar values. The source works on UTF-16 code units, so lone surrogates are not modelled.
- Settings.SaveSettings: the actual persistence (`context.saveExtensionSettings`, `localStorage.setItem` with the JSON text) is reduced to whether the save call throws.
- `updateMenuStylesUI` is a call into code outside the model; only whether it is called is recorded. settings.js:530 copies `Constants.DEFAULT_MENU_STYLES`, which constants.js does not define. As the files stand, `JSON.parse(JSON.stringify(undefined))` throws a SyntaxError there whenever the stored styles are falsy. The model assumes a defined object and keeps it opaque.
- The custom-icon row and the preview element are found with `querySelector` in the source. Here they are parameters, and each may be null.
- The load routine reaches the enabled dropdown as `sharedState.domElements.settingsDropdown`, and the save routine reaches it by its id. The model assumes these are the same element.
- `setMenuVisible` (state.js) and `updateMenuVisibilityUI` (ui.js) are not part of this model. `Dom.SharedState` stands in for them: it records the flag, what was last rendered, and how many renders happened.
- The settings-panel markup (`createSettingsHtml`), the icon file upload through `FileReader` (`handleFileUpload`, `setupSettingsEventListeners`) and the listener wiring in `setupEventListeners` are plumbing and are not modelled.
- The menu-style panel's handlers are outside this core. So are the ids events.js uses that constants.js does not define (the style button, the style panel, the follow-theme checkbox).
- Console logging is not modelled.
- `handleQuickReplyClick` is asynchronous. The model runs it to completion and records whether its promise rejects. Interleavings with other events during the await are not modelled.

## Findings

| source | as written | input that shows it | evidently intended | confidence | as-written member | corrected member |
|---|---|---|---|---|---|---|
| settings.js:421-426 | without a host save hook, `localStorage.setItem` is called with no `try`, so its exception escapes saveSettings and the change handler, while the hook's exception at settings.js:413-420 is caught and reported as false | no host save hook, and local storage is full or disabled, for instance after a large uploaded icon was stored as a base64 data URL: setItem throws and saveSettings throws instead of returning | the fallback's failure is caught and reported like the hook's, so saving never throws | not executed | Settings.StorageFailureEscapes | Settings.GuardedSaveNeverThrows |
| events.js:50-54 | the close follows the awaited trigger call with no `finally`, so a rejected trigger skips it | the menu is open and an item with set name "greetings" and label "hello" is clicked, and its trigger rejects: the menu stays open and is not rendered | the close runs whether the trigger fulfils or rejects, as the comment at events.js:52 says | not executed | Events.RejectedTriggerLeavesMenuOpen | Events.ItemClickAlwaysCloses |
| settings.js:29-56 | the image URL is put between single quotes in `url('…')` without escaping, and `encodeURIComponent` leaves `'` as it is; the style setter ignores a value that does not parse, so the background image stays cleared (the same code is at settings.js:266-293 for the preview) | the custom icon `<svg xmlns='http://www.w3.org/2000/svg'></svg>`: the cascade picks the SVG rule, but the button and the preview show nothing, not even "?" | the picture is shown for every recognised format, with the URL escaped for a quoted CSS string | not executed | Settings.SingleQuotedSvgNotShown | Settings.CssSafeUrlAccepted |
