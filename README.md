# Daily Inspiration & Facts — a Dafny model of its fixed rules

The page fetches a quote (by category) and a random fact from a REST API,
shows each in its own panel with copy, share and save buttons, and keeps the
saved items for the session. Most of `script.js` builds markup and talks to
the browser. This project models the parts that follow fixed rules:

- **Favorites store** (`favorites.dfy`, module `Favorites`). A class `Store`
  holds the session's `quotes` and `facts` lists and the counter badge.
  `Toggle` is `toggleFavorite`. It looks up the first entry with the exact
  text in the list that `type` selects (`IndexOf`, the `findIndex`). If one is
  found it is spliced out; otherwise the new item is pushed. Afterwards the
  badge is brought up to date with `quotes.length + facts.length`
  (`DisplayFavorites`). The store's invariant `Valid` says that texts are
  unique in each list, each list holds items of its own shape, and the badge
  is shown with the right total exactly when that total is positive. Every
  toggle preserves it.
- **Fetchers and loading indicators** (`loading.dfy`, module `Loading`). The
  request is an input. `Reply` is a parsed body, a non-ok HTTP response, or a
  thrown transport error. `Settle` states what `getQuote`/`getFact` resolve or
  reject with. The class `Indicators` holds the two panel spinners and the
  single `refreshBtn.disabled` flag. Each fetch runs as two steps around its
  `await`: `Begin` is `showLoading(type, true)`. `Finish` checks the body,
  prefixes any error, and runs `showLoading(type, false)` in `finally`.
  Because both panels share one button, the first fetch to settle re-enables
  it while the other panel is still loading (`FirstToSettle`). This is stated
  as the code behaves.
- **Escaping for inline handlers** (`escaping.dfy`, module `Escaping`).
  `EscapeQuotes` is `escapeQuotes`: two global replacements. The module also
  models how the browser decodes its output. It first resolves the character
  references in the `onclick` attribute (`AttributeValue`), then reads the
  single-quoted JavaScript literal (`ReadLiteral`). See "Findings".
- **Session rules** (`session.dfy`, module `Session`). This covers the share
  text `"quote" — author`, the API-key check and what start-up does with its
  verdict, the `keydown` dispatch for `r` and `f`, and what the page's other
  listeners (refresh button, category change, `online`, `offline`) do.
- `wrappers.dfy` defines `Option` and `Result`.

Two behaviours of the code are worth stating up front:

- A favorites toggle is its own inverse only for a text not yet saved
  (`ToggleTwiceRestores`). Toggling a saved text twice moves its entry to
  the end of its list (`ToggleTwiceMovesToEnd`, `ToggleTwiceReorders`); only
  the count comes back.
- Element 0 of a fetched array is returned as it is: nothing checks that a
  quote's text and author are non-empty.

## Model

| member | source | states |
|---|---|---|
| `Favorites.CategoryOf` | script.js:131 | the quotes list is selected exactly when `type` is `'quote'` |
| `Favorites.ItemOf` | script.js:132 | the item to add carries the given text, is a `{text, author}` quote exactly when the quotes list is selected, and then keeps the author |
| `Favorites.IndexOf` | script.js:134 | the result is -1 exactly when no entry has the text; otherwise the entry there has the text and none before it does |
| `Favorites.Toggled` | script.js:134-141 | a toggle grows the list by one exactly when the text was absent, and the pushed item is then last; otherwise it shrinks by one |
| `Favorites.ToggleKeepsOthers` | script.js:134-141 | an entry whose text differs from the toggled one is in the list after a toggle exactly when it was before |
| `Favorites.DisplayFavorites` | script.js:147-167 | the badge is shown, with the total, exactly when the total is positive; it is created only once the total is positive and is hidden, never removed, afterwards |
| `Favorites.ToggleAbsentAppends` | script.js:139-141 | a text absent from the list appends the given item at the end; the list grows by one |
| `Favorites.TogglePresentRemovesFirst` | script.js:134-138 | a text present in the list removes its first entry; the other entries keep their order and the list shrinks by one |
| `Favorites.ToggleKeepsUnique` | script.js:134-142 | a list with no two entries sharing a text still has none after a toggle |
| `Favorites.ToggleKeepsShape` | script.js:131-132 | a toggle keeps the quotes list holding `{text, author}` items and the facts list holding `{text}` items |
| `Favorites.ToggleTwiceRestores` | script.js:134-141 | toggling an absent text and then the same text again, with any author, restores the list exactly |
| `Favorites.ToggleTwiceMovesToEnd` | script.js:134-141 | toggling a present text twice in a list with unique texts moves its entry to the end; the length comes back |
| `Favorites.ToggleTwiceReorders` | script.js:134-141 | a concrete two-quote list that two toggles of its first quote do not restore |
| `Favorites.Store.constructor` | script.js:17 | the session starts with both lists empty, no badge, and the invariant holding |
| `Favorites.Store.Total` | script.js:148 | the favorites total is no smaller than either list and is zero exactly when both lists are empty |
| `Favorites.Store.UpdateBadge` | script.js:147-167 | `displayFavorites` sets the badge from the current total |
| `Favorites.Store.Toggle` | script.js:130-145 | only the list `type` selects changes, by the toggle rule, and any type other than `'quote'` selects the facts; the other list is unchanged; the notice is "added" exactly when the text was absent; the badge shows the new total; the store's invariant is preserved |
| `Favorites.ToggleTwice` | script.js:130-148 | from a store without the text, two toggles restore both lists, the total and the badge's visibility |
| `Loading.Decimal` | script.js:33 | the status code prints as a non-empty string of decimal digits without a leading zero |
| `Loading.DecimalRoundTrip` | script.js:33 | the printed status code reads back as the code |
| `Loading.HttpMessage` | script.js:32-34 | a non-ok response's message is "API request failed: ", the status code in decimal, a space and the status text, each at its own position |
| `Loading.InnerError` | script.js:44-52 | the `try` block throws nothing exactly for a non-empty array; an error the request threw keeps its message |
| `Loading.Settle` | script.js:40-75 | a fetch resolves exactly for a non-empty array, with element 0; every rejection message starts with the fetcher's prefix |
| `Loading.SettleShape` | script.js:40-75 | a fetch succeeds exactly when the body is a non-empty array, and then with element 0; every failure message is the fetcher's prefix followed by the message of the error underneath |
| `Loading.SettleEmptyQuotes` | script.js:46-52 | a missing or empty body rejects `getQuote` with "Failed to get quote: No quotes found for this category" |
| `Loading.SettleEmptyFacts` | script.js:65-71 | a missing or empty body rejects `getFact` with "Failed to get fact: No facts available" |
| `Loading.SettleHttpError` | script.js:32-52 | a non-ok response rejects with the prefix, then "API request failed: ", the status code and the status text |
| `Loading.Indicators.ShowLoading` | script.js:305-318 | the one panel's spinner and the shared refresh button both take the given state; the other panel's spinner is untouched |
| `Loading.Indicators.Begin` | script.js:40-44 | before the request is awaited, the panel's spinner is on and the button is disabled |
| `Loading.Indicators.Finish` | script.js:44-55 | after the request settles, the result is `Settle` of the reply, and on every path the panel's spinner is off and the button is enabled |
| `Loading.Indicators.GetQuote` | script.js:40-56 | `getQuote` settles as `Settle` says and leaves the quote spinner off and the button enabled; the fact spinner is unchanged |
| `Loading.Indicators.GetFact` | script.js:59-75 | `getFact` settles as `Settle` says and leaves the fact spinner off and the button enabled; the quote spinner is unchanged |
| `Loading.Indicators.FirstToSettle` | script.js:305-318 | with both fetches started, the first to settle re-enables the shared button while the other panel's spinner is still on |
| `Escaping.ReplaceAll` | script.js:79 | a global one-character replacement whose replacement lacks the character leaves none of it; without the character the text is unchanged |
| `Escaping.EscapeQuotes` | script.js:78-80 | the escaped text contains no `"` |
| `Escaping.EscapeQuotesPerCharacter` | script.js:78-80 | the two passes equal escaping each character alone: `'` becomes `\'`, `"` becomes `&quot;`, every other character is kept in order |
| `Escaping.EscapeQuotesPlainRoundTrip` | script.js:251-257 | for a text without `\`, `&` or line breaks, once its buttons exist, the handler receives exactly the text |
| `Escaping.EscapeQuotesBreaksHandler` | script.js:282 | for a fact that is one backslash, the copy handler's first literal runs on to `', ` and the rest, `fact')`, opens a literal that never closes, so the handler does not parse |
| `Escaping.EscapeQuotesDecodesEscape` | script.js:282 | a text that is the two characters `\n` reaches its handler as one line feed, with the rest of the attribute read as usual |
| `Escaping.EscapeQuotesEndsLiteralEarly` | script.js:251 | in a text starting with `\'`, followed by text without `'`, `"` or `&`, the handler's literal ends after one backslash and the rest of the text is read as script |
| `Escaping.EscapeQuotesConflates` | script.js:78-80 | the texts `"` and `&quot;` escape to the same string |
| `Escaping.EscapeQuotesResolvesReference` | script.js:251 | a text that is `&quot;` reaches its handler as `"` |
| `Escaping.EscapeQuotesKeepsLineBreak` | script.js:251 | a text that is a line break leaves the handler's literal unterminated |
| `Escaping.HandlerRoundTrip` | script.js:78-80 | with literal escaping and then attribute escaping, once the buttons exist, every handler receives exactly its text and the rest of its attribute under the modelled decoding (which leaves U+0000 out), and the escaped text holds no `"` |
| `Session.ShareQuoteText` | script.js:94 | the shared text is `"`, the quote, `"`, a space, an em dash, a space and the author, each at its own position |
| `Session.ShareQuoteTextInjective` | script.js:93-96 | two shared texts agree only if their quotes and authors do, for quotes without `"` |
| `Session.ShareQuoteTextAmbiguous` | script.js:94 | a quote containing `" — ` can share as the same text as a different quote and author |
| `Session.Utf16Length` | script.js:406 | `API_KEY.length` counts UTF-16 code units: at least one per character, at most two, and exactly one per character when none lies beyond U+FFFF |
| `Session.KeyRejected` | script.js:406 | a key is rejected exactly when it is shorter than ten UTF-16 code units or is the placeholder |
| `Session.Startup` | script.js:405-418 | start-up refreshes, and installs the shortcuts, exactly when the key is accepted; a rejected key yields only the configuration error; an accepted key first runs `displayFavorites` (which shows nothing for the empty store of a new session), refreshes last and shows no error |
| `Session.KeyAcceptedExactly` | script.js:406 | a key is accepted exactly when it has at least ten UTF-16 code units and is not the placeholder; any key of ten characters other than the placeholder is accepted; the placeholder is long enough to need its own test |
| `Session.AstralKeyAccepted` | script.js:406 | a key of five characters beyond U+FFFF has length ten and is accepted |
| `Session.KeyDown` | script.js:372-385 | `r` refreshes and `f` opens the favorites exactly when neither ctrl nor meta is held; any reaction starts by preventing the default |
| `Session.Dispatch` | script.js:372-436 | a click the refresh button's listener receives (none does while a fetch has the button disabled) and the `online` listener refresh for every key, the `r` shortcut only once start-up installed it; only a category change reloads the quote alone; key presses do nothing before the shortcuts are installed |
| `Session.RejectedKeyRefreshPaths` | script.js:395-432 | with a rejected key, start-up and key presses never refresh, and the refresh button and the `online` listener are the only events that do |
| `Session.ShippedKeyRejected` | script.js:2 | the key as shipped is rejected with "Please add your API Ninjas key to script.js" |

## Findings

| source | as written | input that shows it | evidently intended | confidence | as-written member | corrected member |
|---|---|---|---|---|---|---|
| script.js:78-80 | `escapeQuotes` escapes only `'` and `"` before a text is placed in `onclick="f('…')"`. Backslashes, `&` and line breaks are left as they are. | The two-character text `\n`: the handler receives one line feed. A text starting with `\'`: the literal ends after a backslash and the rest of the text is read as script. A fact that is one backslash: the copy handler does not parse. A text `&quot;` arrives as `"`; a line break leaves the literal unterminated. | Each handler receives the exact text it was rendered with. | not executed; high | `Escaping.EscapeQuotesDecodesEscape` | `Escaping.HandlerRoundTrip` |

## Left out

- `makeAPIRequest`, the query-string encoding, `fetch` and `response.json` are network I/O. The settled request is the input `Reply`. Only the message text of a non-ok response is modelled (`HttpMessage`).
- A body that parses to something other than null or an array is not modelled: `Reply.Received` carries an optional array.
- `refreshContent`'s `Promise.all`, and the last-write-wins overlap between refreshes, are about async scheduling. Only the interleaving of the loading indicators is modelled (`FirstToSettle`).
- The initial state of the spinners and the button comes from the page's markup, which is not part of this model. `Indicators` takes it as constructor arguments.
- All markup is presentation. This covers `displayQuote`, `displayFact`, `showFavoritesModal`, the error panels of `loadQuote`/`loadFact`, the badge's label and styling, and the keyboard hints.
- `showNotification` and `showError` are timers and styling. Their timing, animation and CSS are left out. The toggle's notification is modelled only as `Added`/`Removed`, and the other notifications as effect values.
- `copyToClipboard`, `shareContent`, `navigator.clipboard` and `navigator.share` are platform calls. `shareFact` passes the fact through unchanged and needs no model.
- `addCharacterCount` splits words on the regex class `\s`, which the model does not define; its `text.length` would be `Session.Utf16Length`.
- The `error` listener and the console logging are left out. The click, change, `online` and `offline` listeners are modelled only as the effects `Dispatch` lists; what `refreshContent` and `loadQuote` then do on the page is the fetch model above.
- `Escaping.ReadLiteral` does not decode hexadecimal, Unicode, octal or line-continuation escapes; it answers `Unmodelled` for them. None of the escapers modelled here produces such an escape.
- `Escaping.AttributeValue` resolves only `&quot;` and `&amp;`. Browsers resolve many more references, which only adds inputs that `escapeQuotes` mishandles. The corrected escaper emits `&` only inside those two references.
- `Escaping.AttributeValue` does not model the HTML tokenizer's replacement of U+0000 by U+FFFD inside an attribute value. So a text holding U+0000 reaches no handler intact, with either escaper, and `Escaping.HandlerRoundTrip` and `Escaping.EscapeQuotesPlainRoundTrip` do not hold for such a text in a browser.
- `Escaping.EscapeQuotesPlainRoundTrip` and `Escaping.HandlerRoundTrip` decode only the `onclick` attribute. They assume the buttons exist, but `displayQuote` and `displayFact` first insert the same text unescaped into the panel's markup (script.js:248-249 and 280). A text such as `<!--` or `<textarea>` turns the buttons after it into comment or raw text, so no handler exists at all. The corrected escaper fixes the handlers, not that markup.
