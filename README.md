# Listing store of the trade bot, in Dafny

This project models the in-memory core of a chat bot where players post the
game items they offer for trade ("трейд") and the items they are looking for
("лф"). The bot keeps, for every user id, an ordered list of trade offers
(`offers`) and an ordered list of looking-for requests (`lookings`). It also
keeps a set of admins and a pool of single-use activation codes (`admins`,
`adm_codes`), and it renders a static item catalog (`skins`) as indented
text lines.

Files:

- `text.dfy` (module `Text`): the Python string operations the bot relies
  on. These are `str.split` with a one-character separator, `str.join` and
  `str.strip()`. `strip` uses Python's own white-space set and works by index,
  as CPython does. The lemmas prove that split and join are inverse, and that
  `strip` cuts exactly the white space at both ends.
- `catalog.dfy` (module `Catalog`): the catalog as data and `format_catalog`.
  The nested loops of the source become three methods, one per level. Each is
  proved to build exactly the lines given by a recursive specification
  function. Lemmas give the line count and the line round trip.
- `bot.dfy` (module `Bot`): submission parsing, rendering of the show replies,
  and the class `State`. Its fields are the two dictionaries and the two sets
  of the source. Its methods are the handlers that change them.

What the model shows, in the bot's terms:

- A submission with a line break stores the stripped lines after the first
  line. A one-line submission stores `text[7:]` (trade) or `text[4:]`
  (looking-for), stripped. The one character after the command is dropped
  whatever it is. The bare command stores one empty item.
- The code has no validation: no cap on the number of lines, no cap on
  length, and empty items are kept. Nothing expires.
- A submission appends to the end of the sender's list and touches nothing
  else. A show reply split at its line breaks gives back the heading and one
  `- item` per stored item, in order. A user with no list and a user with an
  empty list get the same empty reply.
- A clear leaves the key with an empty list and is idempotent. A show right
  after it gives the empty reply.
- Activating a code adds the sender to `admins` and removes exactly that code.

Replies are returned as strings instead of being sent. The handlers take the
sender id and the message text as parameters.

## Model

| member | source | states |
|---|---|---|
| `Text.Split` | bot.py:104 | `text.split("\n")`: one piece more than there are separators, and no piece holds the separator |
| `Text.OccursCounted` | bot.py:104 | a text that holds a line break has a positive count of them, so its split has at least two pieces |
| `Text.JoinSplit` | bot.py:104 | joining the pieces of a split with the separator gives back the text |
| `Text.SplitWithoutSep` | bot.py:104 | a text without a line break splits into itself alone |
| `Text.SplitAtFirst` | bot.py:104 | the first line break ends the first piece; what follows splits on its own (so `[1:]` drops exactly the first line) |
| `Text.SplitJoin` | bot.py:120 | splitting a non-empty join of single lines recovers the lines |
| `Text.SkipSpacesStops` | bot.py:105 | the leading scan of `strip` passes white space only and stops at the first other character |
| `Text.TrimSpacesStops` | bot.py:105 | the trailing scan of `strip` passes white space only and stops after the last other character |
| `Text.StripSlice` | bot.py:105 | `line.strip()` is one slice of the line, only white space is cut on either side, and the result has no white space at either end |
| `Text.StripKeepsOut` | bot.py:105 | `strip` never adds a character, so a stripped line has no line break |
| `Text.StripFixpoint` | bot.py:105 | a line is its own strip exactly when it has no white space at either end; strip is idempotent |
| `Text.StripUnique` | bot.py:105 | whatever white space surrounds a stripped text, `strip` returns that text |
| `Catalog.FormatCatalog` | bot.py:65-77 | the loop over categories, with a header per category, builds exactly the catalog lines, and the result is those lines joined with line breaks |
| `Catalog.AppendTierLines` | bot.py:69-76 | the loop over the rarity tiers of one category appends each rarity line followed by the lines of its items |
| `Catalog.AppendItemLines` | bot.py:71-76 | the loop over the items of one tier appends one line per plain name, and for a set its name and then its parts joined by ", " |
| `Catalog.ItemsLineCount` | bot.py:71-76 | a tier's items render to one line per plain name and two per set |
| `Catalog.TiersLineCount` | bot.py:69-76 | tiers render to one rarity line each, including empty tiers, plus their item lines |
| `Catalog.CatalogLineCount` | bot.py:65-77 | line count = #categories + #rarity tiers + #plain items + 2·#sets |
| `Catalog.EmptyTierLines` | bot.py:69-71 | a tier with no items renders to its rarity line alone |
| `Catalog.FirstCategoryLines` | bot.py:24-28 | the first shipped category renders to its header, the "Ss+" tier and its item, and the two empty tiers' rarity lines |
| `Catalog.RenderedLines` | bot.py:77 | splitting the rendered catalog at its line breaks gives back exactly the emitted lines, when no name holds a line break |
| `Bot.Drop` | bot.py:104 | Python's `text[k:]`: the rest after `k` characters, or empty when the text is shorter |
| `Bot.StripAll` | bot.py:105 | the comprehension strips each line, keeping count and order |
| `Bot.StripAllItems` | bot.py:105 | stripped single lines are storable items: single lines with no white space at either end |
| `Bot.ExtractItems` | bot.py:104-105 | the items are single stripped lines; with a line break there is one per line break; without one the single item is `text[offset:]` stripped |
| `Bot.MultiLineItems` | bot.py:104-105 | a message of a first line and item lines yields those item lines stripped and in order; the first line is discarded |
| `Bot.MultiLineShape` | bot.py:104-105 | every text with a line break is a first line followed by single item lines, and its items are exactly those lines stripped, in order |
| `Bot.OneLineItem` | bot.py:104 | a one-line message yields one item: what follows the command and one separator character, stripped |
| `Bot.CommandOffsets` | bot.py:101-112 | `+трейд` drops 7 characters and `+lf` drops 4 (the command plus one separator); the bare command stores one empty item |
| `Bot.OneLineSubmission` | bot.py:104-112 | `+трейд item` and `+lf item`, with a stripped single-line item after one space, store exactly that item |
| `Bot.Appended` | bot.py:105 | `setdefault(user, []).extend(items)`: the user's earlier items keep their order, the new items follow, the key exists afterwards and other users' lists are unchanged |
| `Bot.AppendedLookup` | bot.py:105 | after an append, `get(user, [])` is the earlier list followed by the new items |
| `Bot.AppendedClean` | bot.py:105 | appending storable items keeps every stored item a single stripped line |
| `Bot.Bullets` | bot.py:120 | one `- item` line per item, in order |
| `Bot.BulletsReadBack` | bot.py:120 | dropping the two-character `- ` prefix from a bullet gives back the item |
| `Bot.BulletsAppend` | bot.py:120 | the bullets of two lists in a row are the bullets of each, in a row |
| `Bot.Render` | bot.py:119-122 | an empty list gives the empty reply; otherwise the reply starts with the heading line |
| `Bot.RenderLines` | bot.py:120 | a non-empty reply splits into the heading and one bullet per item in stored order |
| `Bot.ShowAppended` | bot.py:105-120 | after an append, the reply shows the earlier items' bullets and then the new items' bullets |
| `Bot.SubmitThenShow` | bot.py:101-122 | submit then show: the reply lists the earlier items, then the submitted lines stripped, in submission order |
| `Bot.State.constructor` | bot.py:60-63 | the bot starts with no listings, no admins and the three activation codes |
| `Bot.State.AddTrade` | bot.py:101-106 | `add_trade` appends the extracted items to the sender's `offers` list; `lookings`, `admins` and `adm_codes` are unchanged; the stored-item invariant is kept |
| `Bot.State.AddLf` | bot.py:108-113 | `add_lf` appends the items extracted at offset 4 to the sender's `lookings` list; `offers` and the sets are unchanged |
| `Bot.State.ShowTrade` | bot.py:115-122 | the reply is "Трейд пуст." exactly when the sender has no entry or an empty list; otherwise it splits into "Твой трейд:" and one bullet per stored item |
| `Bot.State.ShowLf` | bot.py:124-131 | the reply is "Лф пуст." exactly when the sender has no entry or an empty list; otherwise it splits into "Ты ищешь:" and one bullet per stored item |
| `Bot.State.ClearTrade` | bot.py:133-136 | the sender's `offers` entry becomes the empty list (the key stays); nothing else changes; a show then gives the empty reply; clearing an empty list changes nothing |
| `Bot.State.ClearLf` | bot.py:138-141 | the sender's `lookings` entry becomes the empty list (the key stays); nothing else changes; a show then gives the empty reply; clearing an empty list changes nothing |
| `Bot.State.ActivateAdmin` | bot.py:147-152 | the sender is added to `admins`; exactly the used code leaves `adm_codes` (one fewer code, so it cannot be used again); the listings are unchanged |

## Left out

- Message dispatch (aiogram's `Dispatcher`, the `F.text` and `Command` filters, first-match handler order), polling, and sending replies are not modelled. These are library and network I/O. The handlers take the sender id and the text, and they return the reply. `Bot.State.AddTrade` and `Bot.State.AddLf` therefore accept any text, not only texts that start with their command. `Bot.State.ActivateAdmin` requires the code to be unused, which the `F.text.in_(adm_codes)` filter ensures before the handler runs.
- `cmd_start`, `cmd_help` and the catalog phrase handler (bot.py:80-99, 143-145) only send constant text or the result of `format_catalog`, so they are not modelled.
- Loading the token, configuring logging and constructing the bot (bot.py:12-20) are configuration, not logic.
- `str.upper` on the Cyrillic category keys is a parameter `upper` of `Catalog.FormatCatalog`. Unicode case mapping is not modelled.
- The Markdown parse mode is not modelled. Replies are the raw strings the handlers build.
- scam_rules.py holds only constant keyword lists, domain lists and regular expressions, and no code in bot.py uses them. Python's regular-expression engine is not modelled.
- Concurrent handlers are not modelled. The handlers run one after another on the single state object.
- bot.py has no rate limiting, no content filtering, no validation (no cap on the number of lines or on their length), no persistence and no expiry, and a show lists only the sender's own items. The model has none of these either.
- `Catalog.FirstCategoryLines` checks only the first category of the shipped catalog line by line. The other categories are covered by the general lemmas, not checked literally.
