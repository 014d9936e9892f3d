# Saved-messages agent: command router and alias store

A Dafny model of the core of `tg_agent.py`. That file is a personal Telegram
agent. It reads the lines its user posts in their own "saved messages" chat
and treats some of them as commands:

- `/ayuda` (also `/help`, `/start`) prints the usage text.
- `/canales [filter]` lists recent broadcast channels and supergroups.
- `/setcanal N alias=name` binds an alias to the N-th channel of the last listing.
- `/aliases` lists the saved aliases.
- `/delalias name` deletes an alias.
- `/buscar name "text" N` searches the aliased channel and forwards the
  matches back to saved messages.

The model has nine modules:

- `Wrappers` holds `Option` and `Result`.
- `Text` models the Python string operations the code relies on: the
  `str.isspace` / `\s` whitespace set, `strip`, lower-casing, substring
  search, string ordering and decimal numerals.
- `Commands` is the router's parser. Each regular expression is written as a
  character-level recogniser, including what `re.IGNORECASE` does with Unicode
  `str` patterns.
- `Grammar` describes each command shape a second time, as a concatenation
  of pieces (keyword, whitespace run, digits, alias, lazy group, tail). It
  proves that each recogniser accepts exactly the lines made of those pieces,
  with the arguments they name.
- `CommandText` renders commands back to text and proves that the parser
  reads every well-formed command back.
- `AliasStore` models the alias file as an abstract JSON value, with
  `_load_aliases` / `_save_aliases` as decode / encode.
- `Channels` holds the dialog entities and the reference definition of which
  channels survive the filter.
- `Handlers` gives one state transition per command. The Telegram client's
  answers are inputs: the dialog list, the peer a channel resolves to, and the
  messages a search finds. What a command puts in the chat is one sequence of
  posts, each a reply or a forwarded message, in the order they appear.
- `Agent` is the router step `_on_saved_message` and a loop that feeds it
  events one after another.

Behaviour of the code that is easy to misread; the model follows the code:

- `\d+` accepts `0` for both `/setcanal` and `/buscar`, and the parser does
  not reject it. `/setcanal 0 ...` then replies "invalid index", because the
  listing is numbered from 1. `/buscar name "text" 0` replies "N must be >= 1"
  only when `name` is an existing alias of channel type. An unknown alias, or
  one of another type, gets its own reply first.
- The alias class `[A-Za-z0-9_]` is compiled with `re.IGNORECASE`. It therefore
  also admits U+0130, U+0131, U+017F and U+212A, because Python folds those
  onto `i`, `s` and `k`. The keyword letters `i`, `s` and `k` match them too.
- In `/canales  filter` the whitespace run is greedy, so the filter starts at
  the first character after the whole run.
- In `/buscar` the query is the shortest text after the opening quote that
  the closing `" N` can follow. A query may itself contain quotes.
- The loader copies `type` and `title` from the file unchecked, so an entry's
  type and title are JSON values. A falsy title (`null`, `0`, `false`, `""`,
  `[]`, `{}`) reads back as `""`. Saving and then loading therefore gives back
  the same store exactly when every title is `""` or truthy
  (`AliasStore.RoundTrip`).
- The handlers are never called on an empty line. The router strips the text,
  and no command shape matches an empty string.

## Model

| member | source | states |
|---|---|---|
| Commands.Parse | tg_agent.py:205-236 | The router strips the line first. Every command it yields is well formed: alias 1–32 alias characters, query non-empty without a line break, filter non-empty and stripped. Any text whose stripped form does not start with `/` yields no command. The result is `Help` exactly when the lower-cased stripped text is `/ayuda`, `/help` or `/start`, and `Aliases` exactly when it is `/aliases`. |
| Grammar.ParseDenotes | tg_agent.py:205-236 | For every line and every command, the router yields that command if and only if the stripped line is made of that command's pieces. So a line made of no shape's pieces yields nothing. |
| Commands.ShapesDisjoint | tg_agent.py:207-234 | At most one of the six tests the router makes (help words, `RE_CANALES`, `RE_SETCANAL`, `/aliases`, `RE_DELALIAS`, `RE_BUSCAR`) succeeds on a stripped line, so the order of the tests never decides the outcome. |
| Commands.ParseStripped | tg_agent.py:207-234 | On stripped text the result is the command of whichever test succeeds. `Help` holds if and only if the help-word test holds, and `Aliases` if and only if the `/aliases` test holds. Whenever a recogniser matches, the result is its command. The result is empty if and only if every test fails. |
| Grammar.CanalesGrammar | tg_agent.py:32 | `RE_CANALES` yields `Canales(None)` if and only if the line is `/canales` up to case. It yields `Canales(Some(f))` if and only if the line is the keyword, a whitespace run and `f`, where `f` does not start with whitespace and has no line break. |
| Grammar.SetCanalGrammar | tg_agent.py:33 | `RE_SETCANAL` yields `SetCanal(i, a)` if and only if the line is the keyword, whitespace, a digit run whose value is `i`, whitespace, `alias=` up to case, the alias `a` (1–32 alias characters) and trailing whitespace. |
| Grammar.DelAliasGrammar | tg_agent.py:35 | `RE_DELALIAS` yields `DelAlias(a)` if and only if the line is the keyword, whitespace, the alias `a` and trailing whitespace. |
| Grammar.QueryTailGrammar | tg_agent.py:34 | The end of `RE_BUSCAR`, `"\s+(\d+)\s*$`, matches a text with count `n` if and only if the text is a quote, whitespace, a digit run worth `n`, and trailing whitespace. |
| Grammar.LazyQueryGrammar | tg_agent.py:34 | The group `(.+?)` captures `q` with count `n` if and only if `q` is a non-empty prefix without a line break, the tail matches after it with count `n`, and it matches after no shorter non-empty prefix. |
| Grammar.BuscarGrammar | tg_agent.py:34 | `RE_BUSCAR` yields `Buscar(a, q, n)` if and only if the line is the keyword, whitespace, the alias `a`, whitespace, a quote, and then a text whose lazy group is `q` with count `n`. |
| Commands.LazyQueryFound | tg_agent.py:34 | When the search for the lazy group succeeds, the tail matches after the prefix it returns, and after no shorter one it tried. |
| Commands.LazyQueryMissed | tg_agent.py:34 | When the search for the lazy group fails, no prefix without a line break is followed by a matching tail. |
| CommandText.ParseRender | tg_agent.py:76-89 | Every well-formed command, written the way the usage text teaches, parses back to itself. This includes queries that themselves contain quotes. |
| CommandText.LazyFindsQuery | tg_agent.py:34 | In `query" N`, the lazy group is exactly `query`, whatever quotes the query contains, and the count is the value of `N`. |
| CommandText.TailHasOneQuote | tg_agent.py:34 | A text matched by `"\s+(\d+)\s*$` has no further quote after its first character. |
| AliasStore.Load | tg_agent.py:46-61 | A missing file loads as the empty store. An unparsable file is an error. Every store that loads has only `""` or truthy titles. |
| AliasStore.Decode | tg_agent.py:53-61 | Decoding succeeds if and only if the document is an object and every entry is an object with `type`, and with `channel_id` and `access_hash` that `int()` accepts. Keys are kept. Type, ids and hash are copied, and a missing or falsy title becomes `""`. |
| AliasStore.Encode | tg_agent.py:63-71 | Saving writes one object per alias, and no other keys. |
| AliasStore.EntryRoundTrip | tg_agent.py:55-60 | An encoded entry always decodes. It decodes to itself exactly when its title is `""` or truthy. |
| AliasStore.RoundTrip | tg_agent.py:46-73 | Loading a saved store gives back that store if and only if all its titles are `""` or truthy. |
| AliasStore.ReloadIsStable | tg_agent.py:46-73 | Whatever the loader returns survives a save and a reload unchanged. |
| Channels.SurvivorsMembership | tg_agent.py:100-119 | A channel is among the survivors (the filtered list before the 40-entry cap) if and only if one of the dialogs is that channel, it is broadcast or megagroup, and it passes the filter. |
| Channels.SurvivorsInDialogOrder | tg_agent.py:94-119 | The surviving channels appear in dialog order. Each comes from a dialog position, and the positions strictly increase. |
| Channels.SurvivorsMatchFilter | tg_agent.py:110-116 | With a non-empty filter, every surviving channel's lower-cased `"title username"` contains it. |
| Handlers.ListChannels | tg_agent.py:91-132 | The listing is replaced outright. Its keys are exactly 1..min(n, 40), and key i is the i-th survivor. With no survivors the reply is "no results" and the listing is empty. Otherwise each numbered line carries its index, the kind (broadcast wins), the title and the id of that survivor. |
| Handlers.SetCanal | tg_agent.py:134-155 | An index absent from the listing, or a peer that is not a channel peer, writes nothing and replies with the matching error. That check comes before the file is loaded. Otherwise only the key `alias` is inserted or overwritten, with type `InputPeerChannel`, the resolved id and hash, and the cached title. All other aliases are unchanged, and what it writes always reloads. |
| Handlers.SortKeys | tg_agent.py:164 | It returns every key exactly once, ordered by lower-cased name. |
| Handlers.ListAliases | tg_agent.py:157-166 | A load error is passed on unchanged. An empty store gives the hint reply. Otherwise the reply lists every alias exactly once, with its title and channel id, sorted by lower-cased name. |
| Handlers.DelAlias | tg_agent.py:168-175 | An absent name writes nothing and replies "does not exist". A present one removes exactly that key, keeps the others unchanged, and replies with the removed title. |
| Handlers.Buscar | tg_agent.py:177-202 | The checks come in this order: unknown alias, non-channel type, N < 1, and each gives a single reply. Otherwise the limit is min(N, 50). The chat then gets, in this order, the "searching" reply with the title and limit, each forwarded message, and the reply with their count. The forwarded messages are the first min(limit, found) search results, in order. Nothing beyond 50 is ever forwarded. |
| Handlers.SearchChat | tg_agent.py:194-202 | The chat of a search that ran holds two posts more than it forwards, and the messages forwarded in it are exactly the ones sent, in order. |
| Handlers.BindThenReload | tg_agent.py:146-153 | After `/setcanal`, the file reloads to exactly the store written. It shows the alias with the title cached at bind time and the channel peer type. |
| Handlers.DeleteUndoesBind | tg_agent.py:146-175 | Binding a fresh alias and then deleting it restores the original store, and the deletion reports the cached title. |
| Handlers.DelAliasOnSaved | tg_agent.py:168-175 | On a saved store holding the name, `/delalias` writes that store minus the one key, provided every title in it is `""` or truthy. |
| Handlers.DeleteTwice | tg_agent.py:168-175 | A second `/delalias` of the same name replies "does not exist" and leaves the file untouched. |
| Handlers.SetCanalRebinds | tg_agent.py:146-153 | `/setcanal` on a file that already binds the alias to the entry it would write writes the same store back. |
| Handlers.BindTwice | tg_agent.py:146-153 | Binding the same alias again from the same listing writes the same store: it overwrites and never adds a second entry. |
| Handlers.EmptySearchForwardsNothing | tg_agent.py:196-202 | When the aliased channel has no match for the query, the search forwards nothing and, if it ran, its count reply says 0. |
| Agent.Commit | tg_agent.py:146-175 | The file is rewritten only when a handler hands back a store to write. The rewritten file then loads as exactly that store, provided every title in it is `""` or truthy, as in every store the handlers write. A load error leaves the state unchanged and sends no reply. The listing is never touched. |
| Agent.Dispatch | tg_agent.py:207-236 | Each parsed command runs its own handler, and the outcome is that handler's. `/ayuda` replies with the usage text. `/canales` replaces the listing with the one its filter selects. `/setcanal` and `/delalias` commit their handler's store and reply. `/aliases` replies with the sorted list of the loaded store. `/buscar` posts its handler's replies and forwards in the handler's order. No command changes nothing and posts nothing. Only `/canales` replaces the listing, only `/setcanal` and `/delalias` rewrite the file, and only `/buscar` forwards, at most 50 messages. A handler error means the file did not load, nothing changed and nothing was posted. A file that loads still loads afterwards. |
| Agent.HandleMessage | tg_agent.py:205-236 | The outcome for a line is the outcome of the handler for the command the line parses to, as `Agent.Dispatch` states it. Text that is not a command changes nothing and posts nothing. The same frame rules hold: only `/canales` replaces the listing, only `/setcanal` and `/delalias` rewrite the file, and only `/buscar` forwards. |
| Agent.Run | tg_agent.py:205-236 | The run yields one outcome per event. Each outcome is the router step (`Agent.Handled` of the parsed text) taken from the state the previous event left; `Agent.IsTrace` states this link for every event. The final state is the last event's state. The chat the run leaves is each event's posts (replies and forwards, in order), event after event. Each event forwards at most 50 messages. A loadable file stays loadable, and a run of non-commands changes nothing and posts nothing. |
| Agent.TraceExtend | tg_agent.py:205-236 | Adding the router step for the next event to a trace of the earlier events gives a trace of one more event. |
| Agent.Step | tg_agent.py:205-236 | Handling the next event extends the trace by one outcome, with at most 50 forwards. A loadable file stays loadable, and a non-command leaves the state as it was and posts nothing. |

## Left out

- The Telegram client (`TelegramClient`, `get_dialogs`, `get_input_entity`, `iter_messages`, `forward_messages`, `respond`, `start`, `run_until_disconnected`) is network code. Its results are inputs instead: the dialog sequence (standing for the at most 400 dialogs `get_dialogs(limit=400)` returns), a function giving the peer a channel resolves to, and a function giving a channel's matching messages in order. Failures inside the client, such as a network error in the middle of a search, are not modelled.
- File I/O and `json.dump` formatting (indentation, `ensure_ascii`) are not modelled. The file is missing, unparsable, or a JSON document. Duplicate keys and JSON numbers with a fraction are not represented.
- `main`, `run` and environment variables are process lifecycle plumbing. The registration of the router for the saved-messages chat (tg_agent.py:43) appears only as `Agent.Run` applying the router step to each event.
- Agent.Run: handles each event to completion before the next one starts. Telethon's client, built without `sequential_updates` (tg_agent.py:38), runs each update in its own task. Handlers may therefore interleave at every `await`: a `/setcanal` that arrives while `/canales` awaits `get_dialogs` (tg_agent.py:95) reads the old `last_list`. Within each load-modify-save (tg_agent.py:146-153 and 169-174) no `await` falls between the load and the save, so concurrent handlers cannot lose an update of the file; the model does not prove this.
- The Spanish reply texts, including the usage text, are not modelled. Replies are tagged values carrying the data the texts interpolate.
- Commands.Parse: `\d` and `int()` also accept non-ASCII decimal digits (for example Arabic-Indic digits). The model recognises only ASCII digits, so it yields no command for such text.
- Channels.Survivors: `str.lower()` is modelled on ASCII letters only. Filter matching for titles or filters with non-ASCII capitals is therefore not modelled exactly. The help and `/aliases` word tests are exact, because no non-ASCII character lower-cases to the single ASCII letters they compare against.
- Handlers.ListAliases: the sort key uses the same ASCII-only lower-casing. Python's stable sort keeps aliases with equal keys in file order; the model only promises that they are adjacent, in some order.
- AliasStore.Decode: `int()` would also accept a numeric string, or a float, for `channel_id` or `access_hash`. The model's JSON values have no floats. A numeric string is treated as malformed.
