# Portfolio site: verified model of its sequential logic

A Dafny model of the parts of the portfolio web site that are plain
sequential logic:

- the contact server's append-only message store (`server.js`): the
  `messages.json` file is a field of the class `ContactServer.MessageStore`;
  `initMessagesFile`, `POST /api/contact` and `GET /api/messages` are its
  methods, and the clock (`Date.now()`, `toISOString()`) is passed in;
- the admin inbox helpers (`public/scripts/messages.js`): preview
  truncation, the subject default, the unread count and its badge, the rows
  `renderMessagesList` produces, `filterMessages` over the rows and filter
  buttons (arrays updated in place), and the row update of `markAsRead`;
- the dashboard utilities (`public/scripts/dashboard.js`): the
  comma-separated tag and technology parser, the theme toggle and its icon,
  the notification icon, and how `fetchWithAuth` settles a request. The
  browser state these touch (`data-theme`, `localStorage`, the location,
  the notification container, the requests sent) is the class
  `Dashboard.Page`;
- the theme transition manager (`public/scripts/themeTransition.js`) as the
  class `ThemeTransition.ThemeTransitionManager`: its two guard flags, the
  theme and the decoration elements. Its async methods are cut at their
  timers and awaits: `BeginDark`/`BeginLight` run the part before the
  three-second wait, `RaiseRays` is the half-second timer, `Reset` runs at
  the end. `ShowWinterWarning` opens the popup and `Click` is a button
  press.

`JsString` gives the JavaScript primitives the parser uses: `split` on one
character, `map`, `filter`, `join` and `trim`. `trim` removes ECMAScript's WhiteSpace and
LineTerminator code points.

The main results are these:
- A clean tag list survives the edit form unchanged. The form is filled
  with `join(', ')` and parsed again on submit (`Dashboard.ParseJoinRoundTrip`).
  This rests on `split`/`join` inverting each other (`JsString.SplitJoin`,
  `JsString.JoinSplit`).
- For the count `loadMessages` computes (messages.js:97), the `unread`
  filter shows as many rows as that count, and the `read` filter shows the
  rest (`Inbox.ShownUnread`, `Inbox.ShownRead`). This holds when no message
  field contains HTML markup; the source does not escape field values (see
  "Left out").
- With that count, the badge is shown exactly when some message is unread
  (`Inbox.BadgeShownIffUnread`).
- A contact post appends exactly one record and keeps the earlier ones in order.
- The record ids stay distinct exactly when the clock value is new
  (`ContactServer.AppendKeepsIdsDistinct`).
- The transition manager keeps its invariant (`Valid`) through every method.

Two behaviours of `server.js` are easy to miss:
- A posted body is stored with only `id` and `timestamp` added. No `read`
  field is set and no e-mail is sent.
- When the messages file cannot be read or parsed, the handler replies with
  status 500 and writes nothing.

## Model

| member | source | states |
|---|---|---|
| `ContactServer.Stamp` | server.js:44-48 | the stored record has every body key plus `id` and `timestamp`; `id` is the clock value and `timestamp` the ISO text, overriding body fields of those names; every other body field is kept |
| `ContactServer.AppendKeepsIdsDistinct` | server.js:46 | after an append the ids are distinct iff they were distinct before and no earlier record already has the clock value as its id |
| `ContactServer.SameClockSameId` | server.js:46 | two posts stamped with the same clock value get the same id, so the "unique" id depends on the clock |
| `ContactServer.MessageStore.constructor` | server.js:15 | the store starts as the file found on disk |
| `ContactServer.MessageStore.InitMessagesFile` | server.js:28-34 | a missing file becomes the empty list; an existing file, even an unparsable one, is left untouched |
| `ContactServer.MessageStore.PostContact` | server.js:37-58 | on a stored array: exactly one stamped record is appended at the end, earlier records unchanged and in order, reply `{success: true}`; otherwise nothing is written and the reply is status 500 `Failed to save message` |
| `ContactServer.MessageStore.GetMessages` | server.js:61-70 | returns the stored document unchanged (any parsed JSON, not only arrays) or status 500 `Failed to read messages`; the store is not modified |
| `JsString.Split` | public/scripts/dashboard.js:534 | `split(',')` yields at least one piece and no piece contains the separator |
| `JsString.JoinSplit` | public/scripts/dashboard.js:534 | joining the pieces with the separator gives the input back: pieces keep their order and only separators are dropped |
| `JsString.SplitConcat` | public/scripts/dashboard.js:534 | splitting `a + ',' + b` gives the pieces of `a` followed by those of `b` |
| `JsString.JoinConcat` | public/scripts/dashboard.js:497 | joining two non-empty lists of parts puts one separator between their joins |
| `JsString.Join` | public/scripts/dashboard.js:497 | `join` of no parts is empty; otherwise it starts with the first part and has room for a separator between each pair of neighbours |
| `JsString.SplitJoin` | public/scripts/dashboard.js:497 | splitting a join of separator-free parts gives the parts back |
| `JsString.Map` | public/scripts/dashboard.js:534 | `.map(f)`: same length, `f` applied to each element in place |
| `JsString.Filter` | public/scripts/dashboard.js:534 | `.filter(keep)`: the accepted elements, in order, never more than the input; `FilterMembers`, `FilterAllKept`, `FilterKeepsCounts` and `FilterConcat` say which |
| `JsString.FilterMembers` | public/scripts/dashboard.js:534 | `.filter(keep)` returns only elements that `keep` accepts and that occur in the input |
| `JsString.FilterAllKept` | public/scripts/dashboard.js:534 | when `keep` accepts every element, `.filter(keep)` returns the input unchanged |
| `JsString.FilterKeepsCounts` | public/scripts/dashboard.js:534 | every accepted element is kept as often as it occurs |
| `JsString.FilterConcat` | public/scripts/dashboard.js:534 | filtering a concatenation filters each part, keeping the order |
| `JsString.TrimStart` | public/scripts/dashboard.js:534 | result is a suffix of the input, everything removed is white space, and it does not start with white space |
| `JsString.TrimEnd` | public/scripts/dashboard.js:534 | result is a prefix of the input, everything removed is white space, and it does not end with white space |
| `JsString.Trim` | public/scripts/dashboard.js:534 | result is no longer than the input, has no white space at either end, and an already trimmed string is unchanged; `TrimRemovesOnlyEnds` says what is removed |
| `JsString.TrimRemovesOnlyEnds` | public/scripts/dashboard.js:534 | the trimmed text is the slice of the input between its leading and its trailing white space, and only white space is removed |
| `JsString.TrimPadded` | public/scripts/dashboard.js:497 | the space `join(', ')` puts before an item is trimmed off again |
| `Dashboard.TrimAll` | public/scripts/dashboard.js:534 | `.map(t => t.trim())`: same length, each piece trimmed in place |
| `Dashboard.NonEmpty` | public/scripts/dashboard.js:534 | `.filter(Boolean)`: no empty piece is kept, every kept piece comes from the input, and with no empty piece the list is unchanged |
| `Dashboard.NonEmptyKeepsCounts` | public/scripts/dashboard.js:534 | every non-empty piece is kept as often as it occurs in the input |
| `Dashboard.NonEmptyConcat` | public/scripts/dashboard.js:534 | dropping empty pieces of a concatenation drops them from each part, keeping the order |
| `Dashboard.TrimAllConcat` | public/scripts/dashboard.js:534 | trimming a concatenation trims each part, keeping the order |
| `Dashboard.ParseList` | public/scripts/dashboard.js:534 | every parsed tag is non-empty, comma-free and has no white space at either end; which tags come out, and in which order, is given by `ParseListConcat` and `ParseListPiece` |
| `Dashboard.ParseListConcat` | public/scripts/dashboard.js:648 | typed text is parsed piece by piece: the tags before a comma followed by the tags after it, in input order |
| `Dashboard.ParseListPiece` | public/scripts/dashboard.js:534 | a comma-free piece gives its trimmed text as the one tag, or no tag when it is blank |
| `Dashboard.ParseJoinRoundTrip` | public/scripts/dashboard.js:612 | a clean list joined with `, ` (as the edit form shows it) parses back to the same list, in the same order |
| `Dashboard.ParseIdempotent` | public/scripts/dashboard.js:648 | parsing the joined result of a parse gives that parse again |
| `Dashboard.NextTheme` | public/scripts/dashboard.js:205-209 | the new theme is `dark` or `light`, and `light` exactly when the current one is `dark` |
| `Dashboard.ToggleTwice` | public/scripts/dashboard.js:205-209 | toggling twice more returns to the same theme; two toggles from `dark` give `dark` |
| `Dashboard.ThemeIcon` | public/scripts/dashboard.js:216-219 | the icon is `fas fa-sun` iff the theme is `dark`, otherwise `fas fa-moon` |
| `Dashboard.NoticeIcon` | public/scripts/dashboard.js:31-34 | `check-circle`, `exclamation-circle`, `exclamation-triangle` exactly for success, error, warning; `info-circle` for every other type |
| `Dashboard.ErrorMessage` | public/scripts/dashboard.js:76-84 | `error` if truthy, else `message` if truthy, else `Request failed`; an unparsable body gives `Request failed`; never empty |
| `Dashboard.Includes` | public/scripts/dashboard.js:88 | `includes` holds exactly when the part occurs at some position of the string |
| `Dashboard.Settle` | public/scripts/dashboard.js:69-92 | success iff status 200-299; the token is dropped iff the failure is 401 or 403, which fails with `Session expired`; other failures carry `ErrorMessage`; JSON is read iff the content type includes `application/json` |
| `Dashboard.Page.ShowMessage` | public/scripts/dashboard.js:26-38 | appends one notification with the icon for its type; nothing else changes |
| `Dashboard.Page.ApplyTheme` | public/scripts/dashboard.js:211-220 | sets both `data-theme` and the stored theme to the argument and, when the icon exists, its class by `ThemeIcon` |
| `Dashboard.Page.ToggleTheme` | public/scripts/dashboard.js:205-209 | `dark` becomes `light` and anything else `dark`, on the page and in storage; an existing icon becomes `fas fa-sun` for dark and `fas fa-moon` for light |
| `Dashboard.Page.FetchWithAuth` | public/scripts/dashboard.js:47-98 | without a token: `Not authenticated`, no request, redirect to login; otherwise one request and the `Settle` outcome, 401/403 removing the token and redirecting; every failure adds an error notification |
| `Inbox.TruncateText` | public/scripts/messages.js:321-324 | text of length at most `maxLength` is returned unchanged; longer text becomes its first `maxLength` characters plus `...`, length `maxLength + 3` |
| `Inbox.TruncateIdempotent` | public/scripts/messages.js:321-324 | truncating a truncated text again with the same limit changes nothing |
| `Inbox.Subject` | public/scripts/messages.js:51 | a present non-empty project type is the subject; a missing or empty one gives `General Inquiry` |
| `Inbox.Unread` | public/scripts/messages.js:97 | the filtered list holds exactly the unread messages of the input |
| `Inbox.ReadOnes` | public/scripts/messages.js:298-299 | the complementary list holds exactly the read messages of the input |
| `Inbox.UnreadCount` | public/scripts/messages.js:97 | the count handed to the badge is the length of the unread list, at most the number of messages |
| `Inbox.UnreadReadPartition` | public/scripts/messages.js:97 | unread and read messages together are the input as a multiset, so the counts add up to the list length |
| `Inbox.UnreadCountPositive` | public/scripts/messages.js:97 | the unread count is positive iff some message is unread |
| `Inbox.UpdateMessageCount` | public/scripts/messages.js:283-289 | with a badge present its text becomes the count and it is displayed (`flex`) iff the count is greater than 0; without a badge nothing happens |
| `Inbox.BadgeShownIffUnread` | public/scripts/messages.js:283-288 | after loading, the badge is displayed iff some message is unread |
| `Inbox.RenderRow` | public/scripts/messages.js:41-58 | the row carries the message's id, sender and e-mail, class `read` or `unread` by its state, an unread dot iff unread, the subject default and a 100-character excerpt |
| `Inbox.RenderMessagesList` | public/scripts/messages.js:36-60 | an empty list renders only the `No messages found` placeholder; otherwise one row per message, in order (field values taken as plain text) |
| `Inbox.VisibleRendered` | public/scripts/messages.js:291-304 | `Visible` (messages.js:294-303): a rendered row is shown under `unread` iff unread, under `read` iff read, and under any other filter always |
| `Inbox.ShownUnread` | public/scripts/messages.js:295-296 | the `unread` filter shows as many rendered rows as the unread count, for fields without markup |
| `Inbox.ShownRead` | public/scripts/messages.js:298-299 | the `read` filter shows the read rows: the list length minus the unread count, for fields without markup |
| `Inbox.ShownAll` | public/scripts/messages.js:301-302 | any other filter shows every row |
| `Inbox.FilterMessages` | public/scripts/messages.js:291-310 | every row's display becomes `flex` or `none` by the filter, everything else in the row unchanged; exactly the buttons whose `data-filter` equals the filter are active |
| `Inbox.FirstRow` | public/scripts/messages.js:229 | finds the first row with the id, or reports that none has it |
| `Inbox.MarkedRead` | public/scripts/messages.js:230-234 | the row loses `unread`, gains `read` and loses its unread dot; its other classes and every other field are unchanged |
| `Inbox.MarkAsRead` | public/scripts/messages.js:228-234 | only the first row with the id is marked read; with no such row nothing changes |
| `ThemeTransition.SetRays` | public/scripts/themeTransition.js:24 | the rays' opacity is set only when the rays element exists |
| `ThemeTransition.ThemeTransitionManager.constructor` | public/scripts/themeTransition.js:3-17 | both flags false, theme `dark` in the document and in storage, nobody waiting on the popup |
| `ThemeTransition.ThemeTransitionManager.Reset` | public/scripts/themeTransition.js:19-27 | loading screen off, `sunrise` and `sunset` removed, sun and moon hidden, rays dimmed, both flags false; the theme is kept |
| `ThemeTransition.ThemeTransitionManager.ShowWinterWarning` | public/scripts/themeTransition.js:29-33 | while a popup shows it answers `false` at once and changes nothing; otherwise it sets `isShowingPopup`, shows the popup and leaves one more promise waiting |
| `ThemeTransition.ThemeTransitionManager.Click` | public/scripts/themeTransition.js:37-55 | preview answers `true` and close `false`, hiding the popup and clearing `isShowingPopup`; with nobody waiting a click changes nothing |
| `ThemeTransition.ThemeTransitionManager.AskWinterWarning` | public/scripts/themeTransition.js:29-59 | the whole warning: `false` at once if a popup is already showing, else the button's answer with `isShowingPopup` cleared |
| `ThemeTransition.ThemeTransitionManager.BeginDark` | public/scripts/themeTransition.js:61-78 | refused while a transition runs (nothing changes); otherwise sets `isTransitioning`, theme `dark`, backdrop `sunset` and not `sunrise`, moon shown, sun hidden |
| `ThemeTransition.ThemeTransitionManager.TransitionToDark` | public/scripts/themeTransition.js:61-83 | a no-op while a transition runs; otherwise ends in theme `dark` with both flags false, the loading screen off, `sunrise` and `sunset` removed, sun and moon hidden, rays dimmed if present, and the popup as it was |
| `ThemeTransition.ThemeTransitionManager.BeginLight` | public/scripts/themeTransition.js:85-106 | refused while a transition runs (nothing changes); otherwise sets `isTransitioning`, theme `light`, backdrop `sunrise` and not `sunset`, sun shown, moon hidden |
| `ThemeTransition.ThemeTransitionManager.RaiseRays` | public/scripts/themeTransition.js:98-100 | lights the rays if present; nothing else changes |
| `ThemeTransition.ThemeTransitionManager.TransitionToLight` | public/scripts/themeTransition.js:85-111 | a no-op while a transition runs; otherwise ends in theme `light` with both flags false, the loading screen off, `sunrise` and `sunset` removed, sun and moon hidden, rays dimmed if present, and the popup as it was |

## Left out

- File I/O is replaced by the field `MessageStore.file`. Not modelled: write failures and partial writes, `ensureDataDir`, `fs.access` failing for reasons other than absence, and the lost-update race between concurrent requests.
- JSON numbers are integers, which is all `Date.now()` produces; the key order of the stored object is not modelled (only its keys and values). Request bodies are JSON objects; the index keys an array body would spread into are not modelled.
- Strings are sequences of Dafny characters. JavaScript counts UTF-16 code units, so a character outside the Basic Multilingual Plane counts once here and twice in `truncateText`.
- All HTML template text, `formatDate` (`toLocaleDateString`), event-listener wiring and the network calls of `loadMessagesSection`, `loadMessages`, `selectMessage`, `markAsRead`, `deleteMessage` and `updateUnreadCount` are left out. Only their effect on the badge and the rows is modelled. `renderMessages` (messages.js:103-126) renders the same rows as `RenderRow`, without the placeholder.
- The badge count that comes from the server's `/api/messages/unread-count` reply (messages.js:266-281, used after loading the section, marking as read and deleting) is not modelled. `UpdateMessageCount` covers any count, but the link between the badge and the unread messages is proved only for the count `loadMessages` computes (messages.js:97).
- Message field values are treated as plain text. `renderMessagesList` and `renderMessages` (messages.js:41-58, 103-126) insert `name`, `email`, `projectType` and the excerpt of `message` into the row template without escaping, and the result is assigned to `innerHTML`. Anyone can post these fields through `/api/contact`, which stores the body as it arrives (server.js:44-45). A field holding markup can therefore add or break `.message-item` elements. One row per message (`RenderMessagesList`), `ShownUnread` and `ShownRead` assume fields without markup.
- `truncateText` on a message without text (it would throw) is not modelled: a message's text is always a string.
- Dashboard.Page.FetchWithAuth: the contents of a successful response, request options and headers, a network error from `fetch` and a successful body that fails to parse are not modelled; a non-string truthy `error`/`message` field is not modelled either.
- Dashboard.Page.ShowMessage: the notification's timed fade-out and removal are not modelled.
- The dashboard's `state` object updates (`showLoading`, `hideLoading`, `loadStats`, `loadUserProfile`, `navigateToSection`), `themeManager.init`, the modals, and the rest of the skill and project form handlers are DOM and network glue. Only their list parsing is modelled.
- ThemeTransition.ThemeTransitionManager.BeginDark and BeginLight also run the animation-frame callback that switches the theme, so the frames in which the old theme is still shown are not modelled. The other decoration elements are assumed present, as the code assumes.
- The marketing-site scripts (`public/script.js`, `contact.js`, `profile.js`, `profileCard.js`), the legacy `public/dashboard.js` and the MongoDB server `server/server.js` are not part of this model.
