/** The plugin's fixed names: its extension name, the element ids derived
    from it, the icon types and the icon-type-to-FontAwesome-class table. */
module Constants {

  const EXTENSION_NAME := "quick-reply-menu"

  // Element ids
  const ID_BUTTON := "quick-reply-menu-button"
  const ID_ROCKET_BUTTON := "quick-reply-rocket-button"
  const ID_MENU := "quick-reply-menu"
  const ID_CHAT_LIST_CONTAINER := "chat-quick-replies"
  const ID_GLOBAL_LIST_CONTAINER := "global-quick-replies"
  const ID_CHAT_ITEMS := "chat-qr-items"
  const ID_GLOBAL_ITEMS := "global-qr-items"
  const ID_SETTINGS_CONTAINER := EXTENSION_NAME + "-settings"
  const ID_SETTINGS_ENABLED_DROPDOWN := EXTENSION_NAME + "-enabled"
  const ID_ICON_TYPE_DROPDOWN := EXTENSION_NAME + "-icon-type"
  const ID_CUSTOM_ICON_URL := EXTENSION_NAME + "-custom-icon-url"
  const ID_COLOR_MATCH_CHECKBOX := EXTENSION_NAME + "-color-match"

  /** The file input of the settings panel; settings.js names it by this literal. */
  const ID_ICON_FILE_UPLOAD := "icon-file-upload"

  // CSS classes
  const CLASS_MENU_CONTAINER := "quick-reply-menu-container"
  const CLASS_LIST := "quick-reply-list"
  const CLASS_LIST_TITLE := "quick-reply-list-title"
  const CLASS_ITEM := "quick-reply-item"
  const CLASS_EMPTY := "quick-reply-empty"
  const CLASS_ICON_PREVIEW := "quick-reply-icon-preview"
  const CLASS_SETTINGS_ROW := "quick-reply-settings-row"

  // Icon types
  const ICON_ROCKET := "rocket"
  const ICON_COMMENT := "comment"
  const ICON_STAR := "star"
  const ICON_BOLT := "bolt"
  const ICON_CUSTOM := "custom"

  /** The values of the ICON_TYPES enum, in declaration order. */
  const ICON_TYPES: seq<string> := [ICON_ROCKET, ICON_COMMENT, ICON_STAR, ICON_BOLT, ICON_CUSTOM]

  /** ICON_CLASS_MAP; the custom type maps to the empty (falsy) class. */
  const ICON_CLASS_MAP: map<string, string> := map[
    ICON_ROCKET := "fa-rocket",
    ICON_COMMENT := "fa-comment",
    ICON_STAR := "fa-star",
    ICON_BOLT := "fa-bolt",
    ICON_CUSTOM := ""
  ]

  /** ICON_TYPES holds five pairwise distinct values. */
  lemma IconTypesDistinct()
    ensures |ICON_TYPES| == 5
    ensures forall i, j :: 0 <= i < j < |ICON_TYPES| ==> ICON_TYPES[i] != ICON_TYPES[j]
  {
  }

  /** ICON_CLASS_MAP is keyed by exactly the icon types; the four built-in
      ones map to their FontAwesome class and `custom` to the empty string. */
  lemma IconClassMapTable()
    ensures ICON_CLASS_MAP.Keys == set t | t in ICON_TYPES
    ensures ICON_CLASS_MAP[ICON_ROCKET] == "fa-rocket"
    ensures ICON_CLASS_MAP[ICON_COMMENT] == "fa-comment"
    ensures ICON_CLASS_MAP[ICON_STAR] == "fa-star"
    ensures ICON_CLASS_MAP[ICON_BOLT] == "fa-bolt"
    ensures ICON_CLASS_MAP[ICON_CUSTOM] == ""
  {
  }

  /** The ids of the settings controls all carry the extension name as a
      prefix, and they differ from each other and from the upload input's id,
      so that the settings-change handler's id dispatch picks one branch. */
  lemma SettingsIdsDerived()
    ensures forall id :: id in [ID_SETTINGS_CONTAINER, ID_SETTINGS_ENABLED_DROPDOWN, ID_ICON_TYPE_DROPDOWN,
                                ID_CUSTOM_ICON_URL, ID_COLOR_MATCH_CHECKBOX]
                         ==> StartsWithName(id)
    ensures ID_SETTINGS_ENABLED_DROPDOWN != ID_ICON_TYPE_DROPDOWN
    ensures ID_SETTINGS_ENABLED_DROPDOWN != ID_CUSTOM_ICON_URL
    ensures ID_SETTINGS_ENABLED_DROPDOWN != ID_COLOR_MATCH_CHECKBOX
    ensures ID_ICON_TYPE_DROPDOWN != ID_CUSTOM_ICON_URL
    ensures ID_ICON_TYPE_DROPDOWN != ID_COLOR_MATCH_CHECKBOX
    ensures ID_CUSTOM_ICON_URL != ID_COLOR_MATCH_CHECKBOX
    ensures ID_ICON_FILE_UPLOAD !in [ID_SETTINGS_ENABLED_DROPDOWN, ID_ICON_TYPE_DROPDOWN,
                                     ID_CUSTOM_ICON_URL, ID_COLOR_MATCH_CHECKBOX]
  {
  }

  /** `id` is the extension name followed by a non-empty suffix. */
  predicate StartsWithName(id: string) {
    |EXTENSION_NAME| < |id| && id[..|EXTENSION_NAME|] == EXTENSION_NAME
  }
}
