/**
  The session glue with fixed rules: the text a quote is shared as, the check
  of the configured API key at start-up, and the keyboard shortcuts.
 */
module Session {

  /** The tones of a transient notification. */
  datatype Tone = Success | Error | Info

  /** What the page does in answer to an event, in order. */
  datatype Effect =
    | ShowError(message: string)
    | DisplayFavorites
    | SetupShortcuts
    | Refresh
    | PreventDefault
    | Notify(message: string, tone: Tone)
    | ShowFavoritesModal
    | LoadQuote

  /** The events the page listens for once the script has loaded. */
  datatype PageEvent =
    | RefreshClick
    | CategoryChange
    | Online
    | Offline
    | KeyPress(key: string, ctrl: bool, meta: bool)

  /**
    The text `shareQuote` hands to the share sheet: `"quote" — author`, that
    is the quote between double quotes, a space, an em dash, a space and the
    author.
   */
  function ShareQuoteText(quote: string, author: string): (t: string)
    ensures |t| == |quote| + 5 + |author|
    ensures t[0] == '"' && t[1..|quote| + 1] == quote
    ensures t[|quote| + 1..|quote| + 5] == "\" \U{2014} "
    ensures t[|quote| + 5..] == author
  {
    "\"" + quote + "\" \U{2014} " + author
  }

  /** A quote without `"` and its author can be told apart again in the shared text. */
  lemma ShareQuoteTextInjective(q1: string, a1: string, q2: string, a2: string)
    requires '"' !in q1 && '"' !in q2
    requires ShareQuoteText(q1, a1) == ShareQuoteText(q2, a2)
    ensures q1 == q2 && a1 == a2
  {
    var s := ShareQuoteText(q1, a1);
    assert forall i :: 0 <= i < |q1| ==> s[i + 1] == q1[i];
    assert forall i :: 0 <= i < |q2| ==> s[i + 1] == q2[i];
    assert s[|q1| + 1] == '"' && s[|q2| + 1] == '"';
    assert q1 == s[1..|q1| + 1] == q2;
    assert a1 == s[|q1| + 5..] == a2;
  }

  /** With a `" — ` inside the quote, two different quotes share as the same text. */
  lemma ShareQuoteTextAmbiguous()
    ensures ShareQuoteText("a\" \U{2014} b", "c") == ShareQuoteText("a", "b\" \U{2014} c")
  {
  }

  /** The placeholder the repository ships as `API_KEY`. */
  const Placeholder := "YOUR_API_KEY_HERE"

  /** The message start-up shows for a key it rejects. */
  const ConfigError := "Please add your API Ninjas key to script.js"

  /**
    `s.length` in JavaScript: the number of UTF-16 code units, so a character
    beyond U+FFFF counts twice.
   */
  function Utf16Length(s: string): (n: nat)
    ensures |s| <= n <= 2 * |s|
    ensures (forall i :: 0 <= i < |s| ==> s[i] as int <= 0xFFFF) ==> n == |s|
  {
    if s == [] then 0
    else (if s[0] as int > 0xFFFF then 2 else 1) + Utf16Length(s[1..])
  }

  /**
    The key is missing, the placeholder, or shorter than ten UTF-16 code
    units; the emptiness test adds nothing to the length test.
   */
  function KeyRejected(key: string): (rejected: bool)
    ensures rejected <==> Utf16Length(key) < 10 || key == Placeholder
  {
    key == "" || key == Placeholder || Utf16Length(key) < 10
  }

  /**
    What the `DOMContentLoaded` handler does: with a rejected key it shows the
    configuration error and stops; otherwise it runs `displayFavorites` (which
    shows nothing for the empty store of a new session), installs the
    shortcuts and, last, loads both panels.
   */
  function Startup(key: string): (effects: seq<Effect>)
    ensures Refresh in effects <==> !KeyRejected(key)
    ensures SetupShortcuts in effects <==> !KeyRejected(key)
    ensures KeyRejected(key) ==> |effects| == 1 && effects[0] == ShowError(ConfigError)
    ensures !KeyRejected(key) ==>
              effects[0] == DisplayFavorites && effects[|effects| - 1] == Refresh &&
              forall e :: e in effects ==> !e.ShowError?
  {
    if KeyRejected(key) then [ShowError(ConfigError)]
    else [DisplayFavorites, SetupShortcuts, Refresh]
  }

  /**
    A key is accepted exactly when it has at least ten UTF-16 code units and
    is not the placeholder; the emptiness test is implied by the length test,
    while the placeholder, at seventeen code units, needs its own. A key of
    at least ten characters always passes the length test, and so does one of
    five characters beyond U+FFFF.
   */
  lemma KeyAcceptedExactly(key: string)
    ensures !KeyRejected(key) <==> Utf16Length(key) >= 10 && key != Placeholder
    ensures |key| >= 10 && key != Placeholder ==> !KeyRejected(key)
    ensures Utf16Length(Placeholder) >= 10
  {
    assert forall i :: 0 <= i < |Placeholder| ==> Placeholder[i] as int <= 0xFFFF;
  }

  /** Five emoji make a key of length ten, which start-up accepts. */
  lemma AstralKeyAccepted()
    ensures Utf16Length("\U{1F600}\U{1F600}\U{1F600}\U{1F600}\U{1F600}") == 10
    ensures !KeyRejected("\U{1F600}\U{1F600}\U{1F600}\U{1F600}\U{1F600}")
  {
    var k := "\U{1F600}\U{1F600}\U{1F600}\U{1F600}\U{1F600}";
    assert k[1..][1..][1..][1..][1..] == [];
  }

  /** The `keydown` listener: `r` refreshes and `f` opens the favorites, unless ctrl or meta is held. */
  function KeyDown(key: string, ctrl: bool, meta: bool): (effects: seq<Effect>)
    ensures Refresh in effects <==> key == "r" && !ctrl && !meta
    ensures ShowFavoritesModal in effects <==> key == "f" && !ctrl && !meta
    ensures effects != [] <==> (key == "r" || key == "f") && !ctrl && !meta
    ensures effects != [] ==> effects[0] == PreventDefault
  {
    (if key == "r" && !ctrl && !meta
     then [PreventDefault, Refresh, Notify("Content refreshed! \U{1F504}", Info)]
     else [])
    +
    (if key == "f" && !ctrl && !meta then [PreventDefault, ShowFavoritesModal] else [])
  }

  /**
    What the page does for an event after start-up produced `startup`. The
    refresh button's click and the category's change are wired when the
    script loads, and the `online` listener too, whatever the key; key
    presses are answered only once start-up has installed the shortcuts.
    `RefreshClick` is a click the listener receives: while a fetch has the
    button disabled (`Indicators.refreshDisabled` in the loading model), a
    click never reaches it.
   */
  function Dispatch(startup: seq<Effect>, ev: PageEvent): (effects: seq<Effect>)
    ensures Refresh in effects <==>
              ev.RefreshClick? || ev.Online? ||
              (ev.KeyPress? && SetupShortcuts in startup && ev.key == "r" && !ev.ctrl && !ev.meta)
    ensures LoadQuote in effects <==> ev.CategoryChange?
    ensures ev.KeyPress? && SetupShortcuts !in startup ==> effects == []
  {
    match ev
    case RefreshClick => [Refresh]
    case CategoryChange => [LoadQuote]
    case Online => [Notify("Connection restored! \U{1F310}", Success), Refresh]
    case Offline => [ShowError("No internet connection. Content will update when connection is restored.")]
    case KeyPress(key, ctrl, meta) => if SetupShortcuts in startup then KeyDown(key, ctrl, meta) else []
  }

  /**
    With a rejected key neither start-up nor any key press refreshes, since
    the shortcuts were never installed; the refresh button and the `online`
    listener still do, and they are the only events that do.
   */
  lemma RejectedKeyRefreshPaths(apiKey: string, ev: PageEvent)
    requires KeyRejected(apiKey)
    ensures Refresh !in Startup(apiKey)
    ensures Refresh in Dispatch(Startup(apiKey), ev) <==> ev.RefreshClick? || ev.Online?
    ensures ev.KeyPress? ==> Dispatch(Startup(apiKey), ev) == []
  {
  }

  /** The key as shipped is rejected. */
  lemma ShippedKeyRejected()
    ensures Startup(Placeholder) == [ShowError("Please add your API Ninjas key to script.js")]
  {
  }
}
