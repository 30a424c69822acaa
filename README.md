# co-dev-telegram bot core, modelled in Dafny

This project models the logic of `client.py`, the Telegram bot of
co-dev-telegram. The bot lets users create projects and page through them,
one project per message, with `<` and `>` buttons. The model covers five
parts:

- **Callback payloads** (`PyInt`). A button's callback data is written with
  `f"show{id}"` and read back with Python's `int()`. `PyInt` models both
  conversions. `int()` accepts surrounding whitespace, an optional sign,
  and digits with single underscores between them. The whitespace it skips
  is ASCII `\t \n \v \f \r` and space, plus the non-ASCII characters for
  which `str.isspace` holds. The ASCII separators U+001C to U+001F are
  rejected, although `str.isspace` holds for them.
- **Inline keyboards** (`Keyboard`). `make_an_inline_keyboard` calls
  aiogram's `InlineKeyboardMarkup.add` once per row. `add` wraps a row into
  rows of at most three buttons (the default `row_width`) and adds nothing
  for an empty row.
- **Project page** (`Pages`). `make_params_for_project_message` is an
  imperative method, proved equal to the specification function
  `ProjectPage`. The store query becomes the function `FetchNeighbourhood`
  over a sequence of table rows.
- **Button presses** (`Callbacks`). `handle_button_callback` re-renders the
  page only for a `show` payload whose remainder `int()` accepts.
- **Message handling** (`Router`). The process-wide
  `waiting_for_messages` map has three operations: register, deposit and
  take. They are pure functions, used by the class `Bot`. `Bot` also keeps
  the set of telegram ids that have a `user` row. The literal-text
  dispatch is the pure function `Route`.

Inputs that are neither code nor state become parameters:

- the project table (`seq<Project>`);
- the users already known to the store (`Bot`'s constructor argument);
- the incoming message or callback data.

Some consequences of the code that the model keeps:

- Payloads use the prefixes `show` and `like` (client.py:60, 84-86, 92, 96).
- Text that none of the branches of client.py:117-134 names gets no reply
  from the `if`/`elif` chain, since it has no `else`. Outside a private chat
  the sender still gets the warning of client.py:111-112.
- A new sender's `User` row holds only the telegram id (client.py:114-116).
- `ProjectFromDialogue` stores the sender's telegram id as `creator_id`, as
  client.py:128 does. models.py:19 declares that column a foreign key to
  `user.id`.

## Model

| member | source | states |
|---|---|---|
| PyInt.ParseIntAccepts | client.py:62 | whitespace, an optional sign, one or more digits with single underscores between them, and whitespace: `int()` reads every such string as the signed decimal value of its digits |
| PyInt.ParseIntSound | client.py:62 | every string `int()` accepts splits into whitespace, a sign, a digit run with single inner underscores, and whitespace (with ParseIntAccepts: exactly these strings are accepted) |
| PyInt.ParseFormatRoundTrip | client.py:84-86 | `int()` reads back what `f"{n}"` prints, for every integer n, negatives included |
| PyInt.ParseInt | client.py:62 | `int(s)`: strip the whitespace `int()` skips, then read a sign and a digit run; what it accepts and the value it gives are stated by ParseIntAccepts and ParseIntSound |
| PyInt.ParseIntRejects | client.py:61-64 | examples that raise `ValueError`: the empty string, `-` and `+` alone, `- 1` and `+ 1`, `_1`, `1_`, `1__0`, `4 2`, and a digit after the separator U+001C |
| PyInt.FormatNat | client.py:84-86 | `f"{n}"` for n ≥ 0 is a non-empty string of digits that starts with `0` only for n = 0 |
| PyInt.FormatInt | client.py:84-86 | `f"{n}"` starts with `-` exactly when n < 0, is digits after that, and has no leading zero unless n = 0; ParseFormatRoundTrip reads it back |
| PyInt.ParseIntUnderscoreExample | client.py:62 | `int("1_000")` is 1000 |
| PyInt.ParseIntPaddedExample | client.py:62 | `int(" +007\n")` is 7 |
| Keyboard.Chunks | client.py:25-30 | `add(*buttons)` appends the buttons unchanged and in order, in non-empty rows of at most `row_width`; every row but the last is full; one to three buttons make exactly one row; no buttons make no row |
| Keyboard.MakeInlineKeyboard | client.py:22-31 | the loop of `add` calls builds exactly `Layout(rows)` |
| Keyboard.ToButtons | client.py:26-28 | one `InlineKeyboardButton(text, callback_data=data)` per pair, same length, pair j giving button j |
| Keyboard.Layout | client.py:22-31 | the keyboard one `add` per input row builds; MakeInlineKeyboard is proved equal to it, and LayoutKeepsButtons and LayoutRowPerRow state its contents |
| Keyboard.LayoutKeepsButtons | client.py:24-29 | whatever the row lengths, the keyboard's buttons, read row by row, are the input pairs in order, each with its text and callback data |
| Keyboard.LayoutRowPerRow | client.py:22-31 | when every input row has one to three pairs, there is one keyboard row per input row, and button j of row i has text and data of pair j of row i |
| Keyboard.EmptyRowAddsNothing | client.py:24-30 | an empty input row adds no keyboard row |
| Keyboard.LongRowWraps | client.py:25-30 | an input row of more than three pairs is wrapped onto more than one keyboard row |
| Pages.FetchNeighbourhood | client.py:75-77 | the query returns exactly the table rows whose id is project_id - 1, project_id or project_id + 1 |
| Pages.HasId | client.py:82-87 | whether the loop meets a row with the id; HasIdMeans states it |
| Pages.Lookup | client.py:82-88 | the row the loop leaves in `current`; LookupMeans and LookupUnique state which |
| Pages.Caption | client.py:101 | `f"<b>{name}</b>\n{description}"`; FoundPage states that a found page carries it |
| Pages.NavigationRow | client.py:94-98 | the `buttons` list; FoundPage states its order and when each button is there |
| Pages.ProjectPage | client.py:78-103 | the dict `make_params_for_project_message` returns for the fetched rows; EmptyPage and FoundPage state both cases |
| Pages.HasIdMeans | client.py:82-87 | `HasId` holds exactly when some row carries the id |
| Pages.LookupMeans | client.py:82-88 | the loop's `current` is none exactly when no row has the id, and otherwise is the last row with the id |
| Pages.MakeParamsForProjectMessage | client.py:73-103 | the loop over the fetched rows and the button assembly produce exactly `ProjectPage(projects, project_id)` |
| Pages.EmptyPage | client.py:89-93 | with no row for the id: text "Пока что проектов нет!", no parse mode, and a single button ("Обновить", "show{id}") in a single row |
| Pages.FoundPageLayout | client.py:94-100 | with a row for the id the keyboard is one row, the navigation buttons in order |
| Pages.FoundPage | client.py:94-103 | with a row for the id: text `<b>{name}</b>\n{description}` of that row, parse mode HTML, one row of 1 to 3 buttons; the first is ("<", "show{id-1}") iff a row has id-1, the last is (">", "show{id+1}") iff a row has id+1, and ("Мне нравится", "like{id}") follows the optional `<` |
| Pages.FoundPageHasLike | client.py:96 | a found page always has the like button for its id |
| Pages.NeighbourhoodSuffices | client.py:75-88 | rows whose id is outside id-1..id+1 do not affect the page: the page of the whole table equals the page of the fetched rows |
| Pages.LookupUnique | client.py:82-88 | with unique ids (a primary key), the row found is exactly the row that has the id |
| Pages.PageIgnoresRowOrder | client.py:75-88 | with unique ids, the page depends only on which rows the store returns, not on their order |
| Pages.ShowData | client.py:84-86 | `f"show{id}"`, the payload of the `<` and `>` buttons and (client.py:92) of refresh; ShowDataRoundTrip reads it back as the id |
| Pages.LikeData | client.py:96 | `f"like{project_id}"`, the like button's payload; LikeDataIgnored states it is not a show payload |
| Callbacks.ShowTarget | client.py:60-62 | the id a payload asks for: `startswith("show")`, then `int(data[4:])`; ShowTargetAccepts and ShowTargetSound state which payloads give one |
| Callbacks.PageFor | client.py:73-77 | the page for an id, built from the rows the query returns; NeighbourhoodSuffices states that the rest of the table does not matter |
| Callbacks.HandleButtonCallback | client.py:57-70 | the new content of the pressed message, if any; ShowDataRoundTrip, OtherPayloadIgnored and PageButtonsNavigate state its behaviour |
| Callbacks.ShowDataRoundTrip | client.py:60-62 | a payload written as `f"show{id}"` is read back as `id` |
| Callbacks.LikeDataIgnored | client.py:60 | the like button's payload `like{id}` is not a show payload, so pressing it edits nothing |
| Callbacks.ShowTargetAccepts | client.py:60-70 | `show` followed by any text `int()` accepts opens the page of that integer |
| Callbacks.ShowTargetSound | client.py:60-64 | a payload opens a page only if it is `show` followed by whitespace, sign, digit run, whitespace |
| Callbacks.OtherPayloadIgnored | client.py:59-60 | a payload not starting with `show` edits nothing |
| Callbacks.SeparatorPayloadIgnored | client.py:60-64 | `show`, then U+001C, then `1` edits nothing, because `int()` does not skip U+001C |
| Callbacks.NavigationButtonsNavigate | client.py:94-98 | each button of a found page's row leads where its label says: `<` to id-1, `>` to id+1, the like button nowhere |
| Callbacks.PageButtonsNavigate | client.py:84-98 | every button on the page for id leads where its label says: `<` to id-1, `>` to id+1, refresh to id, like nowhere |
| Callbacks.RefreshIsIdempotent | client.py:89-93 | on the empty page the only button is refresh, and pressing it, with no write in between, asks for the very same page again |
| Router.Register | client.py:38 | `waiting_for_messages[user_id] = None`; PromptRoundTrip and OtherUsersUntouched state its effect |
| Router.Deposit | client.py:108-110 | a waited-for user's message fills that user's slot; PromptRoundTrip and LaterReplyWins state its effect |
| Router.Take | client.py:39-41 | one test of the loop condition, and the `pop` once the slot is filled; OperationsKeepSlotsOwned states that only the user's own message comes back |
| Router.OperationsKeepSlotsOwned | client.py:38-41 | register, deposit and take keep every filled slot holding a message from the slot's own user; take returns only that user's message |
| Router.PromptRoundTrip | client.py:37-41 | after register the waiter finds nothing and the map is unchanged; after the user's message is deposited it gets exactly that message and the map is the original without the user |
| Router.OtherUsersUntouched | client.py:38-41 | register, deposit and take leave every other user's presence and slot unchanged |
| Router.LaterReplyWins | client.py:108-109 | two messages deposited before the waiter looks: it gets the second; the first is lost |
| Router.Route | client.py:117-134 | the `if`/`elif` chain on `message.text`; RouteRecognises and MenuRouting state it |
| Router.MenuRouting | client.py:46-49 | of the four menu buttons only "Создать проект" and "Посмотреть список проектов" trigger a branch; both like buttons, and a message without text, fall through |
| Router.RouteRecognises | client.py:117-134 | a text triggers a branch exactly when it is `/start` or one of the first two menu labels |
| Router.ListProjectsReply | client.py:133-134 | the reply to "Посмотреть список проектов" is the page of project 1 |
| Router.ListProjectsMatchesShow | client.py:133-134 | the list opens on the same page that a `show1` button opens |
| Router.ProjectFromDialogue | client.py:125-129 | the new project: name from the first answer, description from the second, creator the sender; CreateProjectDialogue states it |
| Router.EarlyAnswerIsRouted | client.py:119-123 | a waited-for user's answer is deposited; an answer sent before the next `wait_for_message` has registered the user is routed by the `if`/`elif` chain instead, and the dialogue never sees it |
| Router.Bot.constructor | client.py:34 | the pending map starts empty |
| Router.Bot.BeginWait | client.py:38 | the user's slot becomes empty; nothing else changes |
| Router.Bot.PollReply | client.py:39-41 | an empty slot leaves everything as it is; a filled one is popped and its message, which is from that user, returned |
| Router.Bot.HandleMessage | client.py:106-134 | a registered sender's message fills the slot, and nothing else happens (no user row, no routing); any other message leaves the map alone, adds a user row when the sender is new, warns outside private chats, and runs the command its text names |
| Router.CreateProjectDialogue | client.py:119-132 | "Создать проект", then two answers from the same user: the project gets the first answer as name, the second as description and the sender as creator; the user is then no longer waited for, so "/start" is routed again |

## Left out

- PyInt.ParseInt: accepts only ASCII digits. Python's `int()` also accepts the other Unicode decimal digits (Arabic-Indic, Devanagari and so on). The model does not enforce the interpreter's limit on the length of digit strings either; a Telegram callback data string is far shorter than that limit.
- Router.Bot.PollReply: models one test of the `while` condition of client.py:39-40. The `asyncio.sleep(0)` between tests, which waits for the event loop, is not modelled. Neither is the concurrency of handlers. `CreateProjectDialogue` shows one interleaving of handler and dispatcher, written out in sequence. The dialogue registers the user only when each `wait_for_message` starts (client.py:121, 123), after the replies of client.py:120 and 122; an answer sent in either window is routed instead of deposited and is lost to the dialogue (see `EarlyAnswerIsRouted`).
- Router.Bot.PollReply requires the user's key in the map. client.py:39 indexes the dict without a guard. That works only while at most one handler waits per user, and client.py does not enforce this. Two quick "Создать проект" messages from one user start two waiting handlers; once the first pops the slot, the second one's next test at client.py:39 raises `KeyError`. That `KeyError` is not modelled.
- Router.Take requires the user's key in the map, for the same reason: the `KeyError` of client.py:39 after another waiter has popped the key is not modelled.
- Messages without text: `Router.Message.text` is an `Option` so that the model can state what happens to a message without text. aiogram's bare `message_handler()` (client.py:106) accepts only text messages, so the `None` case stands for a message the dispatcher never delivers; with it, `Deposit` could give `ProjectFromDialogue` a `None` name, which cannot happen in the running bot.
- Router.Bot.HandleMessage returns the command; it does not build the replies. `SendMenu` sends the menu of client.py:44-54. `CreateProject` runs the dialogue (see `CreateProjectDialogue`). `ListProjects` replies with `ListProjectsReply(table)`. The prompt texts of client.py:120, 122 and 131 are not modelled.
- Telegram transport calls (`send_message`, `edit_message_text`, `callback.answer`, `reply`, `start_polling`): network I/O. The model records what is sent, not the sending. Telegram refuses an edit that changes nothing (aiogram raises `MessageNotModified`), so pressing refresh on the empty page raises inside `handle_button_callback` and the message stays as it was; the model states only what edit is asked for.
- The database session, `select` queries and commits: a foreign layer. The project query is `FetchNeighbourhood` over a row sequence, kept in table order. User creation is the set `registeredUsers`. Inserting the new project is `ProjectFromDialogue`, which builds the record but does not store it.
- Loading `config.json`: file I/O.
- models.py: the tables only shape the `Project` datatype. The uniqueness of like edges is enforced by the store and not by any code shown.
- Likes: client.py has no handler for the `like` payload, so pressing the like button only acknowledges the press (client.py:59-60). The like tables of models.py are not modelled.
- The inline keyboard is a local value built and returned by `make_an_inline_keyboard`, so it is modelled as a value, not an object. The only library behaviour the model assumes is aiogram's `InlineKeyboardMarkup.add` with its default `row_width` of 3, and `Keyboard` states it.
