# Minecraft player-presence bot, modelled in Dafny

The repository is a Discord bot that watches Minecraft servers. For every
tracked server it periodically looks up the server's status and compares the
players online with those it saw last time. It posts a message to the
server's channel when someone joins or leaves. It stops watching a server
when a lookup fails more than an hour after the server's last recorded roster
change. Users start, stop and query servers with `!` commands; the list and
help commands exist in the code but can never be reached (`Commands.OnlyStartStopQuery`).

This project models the bot's core in Dafny and proves properties of it.

- `bot.py` is the current multi-server bot. Its message helpers, command
  recognition, tracked-server list and reconciliation tick are modelled.
- `main.py` is the earlier one-server-per-guild version. Its address parsing,
  guild map and tick are modelled.

## Layout

| file | module | what it holds |
|---|---|---|
| `wrappers.dfy` | `Wrappers` | `Option`; `Result`, which is a value or the exception a call raises |
| `text.dfy` | `Text` | the Python `str` behaviour the bot relies on, with round-trip lemmas: `split()`, `split(sep)`, `join`, `lower()`, `startswith`, `in`, `str(int)`, and set enumeration |
| `render.dfy` | `Render` | `get_server_name`, `get_players`, the roster line, `check_players` (a loop), `players_message` |
| `commands.dfy` | `Commands` | `on_message` recognition |
| `lists.dfy` | `Lists` | `list.remove` by value equality, repeated removal, order-preserving filtering |
| `reconcile.dfy` | `Reconcile` | the `MCServer` record, one tick step per server, the whole tick as functions, the `on_ready` stale reset |
| `tracker.dfy` | `Tracker` | class `MineClient` of bot.py: `on_ready`, `add_server`, `remove_server`, `list_servers` and `server_status` as methods on `servers` (the list) and `saved` (the last list written to `servers.yml`) |
| `guilds.dfy` | `Guilds` | main.py: `!Start` parsing, command tests, the update text (a loop), class `MineClient` over the guild map |

## Modelling choices

- **Lookups are inputs.** A lookup is `Unreachable(reason)` or `Reached(Status(motd, sample))`. The tick takes one lookup per record, in list order. `on_ready` takes one per stored record and uses only those of stale records; `add_server` takes one. main.py's query takes a player list.
- **The clock is an input.** Time is an integer number of seconds. `now` is a parameter, `Hour` is 3600 and `Day` is 86400.
- **Set iteration order is an input.** Python enumerates a set in an order the program never relies on.
  - Functions that render a set take that order as an argument: `order` for `players ^ old`, `roster` for `players`. The argument must satisfy `IsEnumeration`, which means every element exactly once.
  - The loop methods `Render.CheckPlayers` and `Guilds.UpdateMessage` take the elements in any order. They promise that *some* enumeration gives their result.
- **Records are values.** Python's dataclass equality compares all five fields of `MCServer`, so `list.remove(x)` is `RemoveFirst`, which deletes the first element equal to `x`. The record field `old` is called `known`, because `old` is a Dafny keyword.
- **Messages are values.** A players embed is `PlayerChange(channel, title, players, previous)`, and its text is `Render.PlayersMessage`. Other embeds and plain sends carry their text.
- **Behaviour worth knowing:**
  - `add_server` stores the new record with an empty player set; it does not store the observed roster. The first tick that reaches a populated server therefore announces everyone as joined (`Tracker.FirstTickAnnouncesEveryone`).
  - A tick whose lookup succeeds with an unchanged player set does not refresh `last_checked`. This is the `continue` at `bot.py:258`. A server whose roster has been steady for an hour is dropped at its first failed lookup (`Reconcile.SteadyServerDroppedOnFirstFailure`).
  - Eviction compares one timestamp with one hour; no count of failed lookups is kept.
  - Adding a server that is already tracked appends a second record.
  - Tick and query titles come from the MOTD (`get_server_name`), not from the stored name.

## Model

| member | source | states |
|---|---|---|
| Render.GetServerName | bot.py:121-125 | the name is the MOTD unless the MOTD is "A Minecraft Server", in which case it is the address |
| Render.GetPlayers | bot.py:127-131 | a player is in the result iff a sample exists and lists them; no sample means no players |
| Render.EmptyRosterReadsNone | bot.py:144-147 | the roster line for an empty set reads `Current Players Online: **None**` |
| Render.RosterNamesPlayers | bot.py:144-147 | for a non-empty set the roster line contains every player's name; when no name contains ", ", splitting the joined names on ", " gives back each player exactly once |
| Render.ChangeLineInjective | bot.py:152-155 | two change lines are equal only for the same player and the same verb |
| Render.ChangeLinesExact | bot.py:149-156 | exactly one line per player in `players ^ old`, all distinct; a "joined" line iff the player is new, a "left" line iff the player is gone, none for players in both sets |
| Render.CheckPlayers | bot.py:149-156 | the `message +=` loop yields the change lines of some enumeration of `players ^ old` |
| Render.PlayersMessage | bot.py:158-164 | with no previous set the message is the roster line alone; with one it is the change lines (whose content `ChangeLinesExact` gives) followed by the roster line |
| Render.UnchangedShowsRosterOnly | bot.py:158-164 | when the set has not changed the message is only the roster line |
| Render.SwapScenario | bot.py:149-156 | from {A, B} to {B, C}: two lines, "C joined" and "A left", none for B |
| Render.FirstJoinScenario | bot.py:144-164 | the exact message for one player joining an empty server |
| Text.SplitJoin | bot.py:63-64 | splitting words joined by single spaces gives the words back |
| Commands.ParseCommand | bot.py:55-84 | nothing happens unless the message is someone else's, starts with "!" once lower-cased and has at least two tokens; otherwise the message is a start, stop or query command iff it begins with "!start", "!stop" or "!query"; the address is the second token and the name is the rest joined by spaces |
| Commands.OnlyStartStopQuery | bot.py:60-84 | only start, stop or query is ever dispatched: the list and help branches and the usage replies cannot be reached |
| Commands.BareListIgnored | bot.py:60-82 | a bare `!list`, in any letter case, does nothing |
| Commands.StartArguments | bot.py:63-64 | the address is one non-empty token, and the name splits back into exactly the remaining tokens |
| Lists.RemoveFirstCount | bot.py:211 | `list.remove` takes away exactly one occurrence of the value |
| Lists.RemoveEach | bot.py:262-263 | removing each evicted record takes away exactly those occurrences |
| Reconcile.StepServer | bot.py:243-261 | a failed lookup changes nothing and evicts, with one notice, iff `last_checked` is over an hour old; a success with the same set changes and sends nothing; a success with a different set stores exactly that set as `known` and `now` as `last_checked`, and sends one players notice with the previous set |
| Reconcile.TickServers | bot.py:262-263 | the list after the tick, together with the evicted records, is exactly the list after the loop |
| Reconcile.TickNoticesFrom | bot.py:243-261 | every message the tick sends is the notice of one record's step, and every step that has a notice sends it |
| Reconcile.EvictionsIncluded | bot.py:246-263 | every collected eviction is still in the list when it is removed, so `remove` never raises when no command runs during the tick |
| Reconcile.EvictionsMembers | bot.py:246-252 | a record is collected for removal iff its lookup failed and its `last_checked` is over an hour old (`Evicts`, which is exactly when its step evicts it) |
| Reconcile.TickKeepsOrder | bot.py:242-263 | for pairwise distinct records the tick leaves exactly the non-evicted records, updated, in their original relative order |
| Reconcile.QuietTick | bot.py:256-258 | when every lookup succeeds with an unchanged set, the tick evicts nothing, sends nothing and changes no record |
| Reconcile.SteadyServerDroppedOnFirstFailure | bot.py:246-258 | a success with an unchanged set keeps the old `last_checked`, so one later failure more than an hour after it evicts |
| Reconcile.Refresh | bot.py:41-47 | a record last checked over a day ago loses its player set and, if reachable, is renamed from the MOTD and stamped `now`; other records are unchanged |
| Reconcile.StaleUnreachableDropped | bot.py:41-47 | a stale record that cannot be reached at start-up is evicted by the first failing tick |
| Tracker.AddNameAsWritten | bot.py:195 | the code raises AttributeError exactly when no name is given, and otherwise keeps the given name |
| Tracker.AddName | bot.py:195 | the intended name: the given one, or the MOTD-derived one when none is given; agrees with the code whenever the code does not raise |
| Tracker.UnnamedAddRaises | bot.py:195 | an unnamed start of a reachable server raises instead of adding it |
| Tracker.FirstTickAnnouncesEveryone | bot.py:188-197 | a freshly added record has no known players, so the first tick that reaches a populated server announces every player as joined and nobody as left |
| Tracker.QueryReply | bot.py:180-186 | an error embed with the lookup's text, or a players embed with no previous set |
| Tracker.Partition | bot.py:206-216 | the matching records and the kept records are exactly the records that do and do not match (address, channel), and together make up the list |
| Tracker.InChannel | bot.py:227-228 | the listed records are exactly those of the requesting channel |
| Tracker.ListingHeader | bot.py:226-236 | the header alone is left exactly when the channel has no records, and a listing is never the fallback text |
| Tracker.MineClient.constructor | bot.py:20-23 | the client starts with no servers |
| Tracker.MineClient.OnReady | bot.py:35-52 | with no file nothing changes; otherwise the list is the stored records, each passed through `Refresh`; nothing is written back |
| Tracker.MineClient.AddServer | bot.py:188-204 | a failed lookup replies with the error and changes nothing; otherwise a record with no known players and stamped `now` is appended, the list is saved and the reply is "Now monitoring <name>" |
| Tracker.MineClient.RemoveServer | bot.py:206-223 | every record with this address and channel is removed and the rest keep their order; one reply per removed record; the not-found text iff nothing matched; the list is saved |
| Tracker.MineClient.ListServers | bot.py:225-238 | the reply lists the channel's records in list order, with name alone when it equals the address, else `name (address)`; the fallback text iff none |
| Tracker.MineClient.Tick | bot.py:240-265 | the new list is `TickServers` and the notices are `TickNotices` of the old list and the lookups; the result is saved |
| Text.JoinSplitOn | main.py:30-34 | joining the pieces of `split(sep)` with `sep` gives the string back |
| Text.DigitsRoundTrip | main.py:65 | the decimal digits of the port read back as the port |
| Guilds.ParseStart | main.py:30-35 | an address never contains a colon, an explicit port is colon-free text, the default is 25565, and every exception is the unpacking ValueError |
| Guilds.StartUsage | main.py:30-37 | the `!Start` branch sends the plain usage text, and adds nothing, iff the content does not contain "!Start " |
| Guilds.StartDefaultPort | main.py:30-35 | `!Start ip` listens to `ip` on 25565 |
| Guilds.StartExplicitPort | main.py:30-35 | `!Start ip:port` splits at the colon into `ip` and `port` |
| Guilds.StartTwoColonsRaises | main.py:31-34 | an address with two colons raises ValueError |
| Guilds.ParseMain | main.py:24-60 | each command fires iff its test holds; the tests exclude each other, so a message asks for at most one thing |
| Guilds.UpdateLines | main.py:80-83 | one line per player in `set(pls) ^ set(old)`: "Joined" iff in the new list, "Left" iff only in the old one |
| Guilds.ReorderingShowsRosterOnly | main.py:78-84 | the same players in another order give only the roster line |
| Guilds.UpdateMessage | main.py:79-84 | the `message +=` loop yields the update text of some enumeration of the changed players |
| Guilds.TickRepliesExact | main.py:75-87 | every update is `Update(channel, pls, old)` of one guild whose new list differs from its old one as a list, and every such guild gets that update |
| Guilds.QuietGuildTick | main.py:78 | when no list differs, the tick sends nothing |
| Guilds.SwappedListScenario | main.py:78-84 | two players reported in swapped order: an update is sent, and its text is the roster alone |
| Guilds.DistinctRemove | main.py:39 | deleting a key drops just that key and keeps the dictionary's order free of duplicates |
| Guilds.MineClient.constructor | main.py:15-18 | the client starts with no guild servers |
| Guilds.MineClient.AddServer | main.py:62-71 | a guild without a server gets one with no known players and the "Now listening to ip:port" reply; a guild with one keeps it and is told its current address |
| Guilds.MineClient.Stop | main.py:38-39 | the guild's entry is deleted, or KeyError when there is none |
| Guilds.MineClient.Query | main.py:40-53 | the roster of the query's players if the guild has a server, else the "Not listening" hint |
| Guilds.MineClient.Tick | main.py:73-87 | every guild's list is overwritten with its new one, no guild is added or removed, and the updates are `TickReplies` |

## Left out

- Discord transport is not modelled: sending messages, `fetch_channel`, `make_embed` and the bot's lifecycle. Replies and notices are returned as values.
- Embed images are not modelled: `get_server_icon`, with its base64 and PIL image loading, and the thumbnail.
- The help texts are not modelled. bot.py's `help_embed` is a fixed description. `Guilds.HelpText` is main.py's help text, and nothing is proved about it.
- The network is not modelled: `mcstatus` lookups and the `mcipc` query client. Their results are inputs. In bot.py the error text `lookup` builds is the `reason` of `Unreachable`. main.py's query exceptions are not modelled.
- YAML is not modelled. Loading `servers.yml` is the `stored` input of `OnReady`, where `None` means the file is missing. Each dump is `saved := servers`.
- The logging setup, the tray icon and its thread, `os._exit` and the environment token are not modelled. They are process and I/O concerns.
- The `tasks.loop` intervals (60 s and 5 s) are not modelled. One call to `Tick` is one run of the loop body.
- Render.GetServerName: takes the MOTD as plain text; `motd.to_plain()`'s removal of formatting codes is not modelled.
- Commands.ParseCommand: lower-cases ASCII letters only; Python's `str.lower` also maps other Unicode letters.
- Tracker.MineClient.OnReady: uses one `now` for every record, whereas the source reads the clock again for each one.
- Tracker.MineClient.RemoveServer: is atomic. The source awaits a send inside its loop over the list's copy (`bot.py:216`), so a tick can run in the middle of it: if the tick evicts a later matching record (two exist after a repeated `!start`), the `remove` at `bot.py:211` raises ValueError, the remaining matches stay, the list is not saved and no not-found reply is considered.
- Tracker.MineClient.Tick: is atomic. The source awaits inside its loop (`bot.py:244`, `:254`, `:259`), so a command can run in the middle of a tick: a record added there is visited by the same tick, and a `!stop` that removes a record already collected for eviction makes the `remove` at `bot.py:263` raise ValueError, which ends the tick before the list is saved and stops the loop.
- Guilds.MineClient.Tick: is atomic. The source awaits a send inside its loop over the guild map (`main.py:86`); a `!Start` or `!Stop` handled then changes the map's size and the loop raises RuntimeError.
- Tracker.MineClient.Tick: uses one `now` for the whole tick, whereas the source reads the clock for each record (`bot.py:247`, `:261`).
- Tracker.MineClient.Tick: assumes records in the list are distinct objects. With two entries that are the same object, Python would update both in place.
- Guilds.MineClient.Stop: words the KeyError as `KeyError: <guild id>` in decimal.
- Tracker.MineClient.AddServer: uses the corrected name choice (`AddName`); the code as written is `AddNameAsWritten`, which raises for an unnamed add.

## Findings

| source | as written | input that shows it | evidently intended | confidence | as-written member | corrected member |
|---|---|---|---|---|---|---|
| bot.py:195 | with no name given, the display name comes from `self.et_server_name`, a method the client does not have | `!start host.example` (no name) for a reachable server: AttributeError, so the server is not added and nothing is replied | name the server with `get_server_name(status, address)` | high, not executed | Tracker.AddNameAsWritten (Tracker.UnnamedAddRaises) | Tracker.AddName |
