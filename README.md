# ChatBook session bookkeeping, in Dafny

ChatBook's `mb.py` is a Streamlit chat front end in front of a hosted completion
model. Several simulated users share one page. Each user has a numbered slot.
Everything the script remembers between reruns lives in `st.session_state`:

- `users`: the roster of slot ids;
- `past` and `generated`: one list of questions and one list of answers per slot;
- `input`: one draft string per slot;
- `stored_session`: the archived transcripts of earlier chats.

This project models that bookkeeping and proves properties about it:

- `session.dfy`, module `SessionState`: the class `Session` has one `seq` field per session key. Its methods are the Add User, Remove User, New Chat and Clear-all buttons and the turn-recording loop. `Valid()` is the roster invariant: `users == [0..n-1]`, the three parallel lists have length `n`, and each slot has as many answers as questions. Every state-changing method states its new state in full, and every one except `RemoveUser` (see Left out) preserves `Valid()`; `ShowCombined` changes no state. The roster helpers (`IndexOf`, `RemoveAt`) and the spec function of the turn loop (`Recorded`) are here too.
- `archive.dfy`, module `Archive`: the flattening that New Chat archives. `Transcript` is the specification. `BuildTranscript` is the loop, proved to compute it. Lemmas give the exact shape of the buffer and say when it is empty. `NatToString` models `str()` on a slot id and is proved to be a decimal rendering.
- `timeline.dfy`, module `Timeline`: the "Combined Conversation" view. `Combined` is the stamped merge list. `MergeTimeline` is the loop plus the sort. `SortByTimestamp` models `sorted(..., key=timestamp)`. `Rendered` and `RenderConversation` model the display loop and its index guard.

The completion reply (`Conversation.run`) and the value in each user's text box are parameters of the turn-recording methods. The rendered view is a sequence of strings.

## Model

| member | source | states |
|---|---|---|
| `SessionState.Session.constructor` | mb.py:24-37 | On the first run every session key is an empty list, and `Valid()` holds |
| `SessionState.Session.AddUser` | mb.py:87-93 | Returns the old roster length as the new id and appends it to `users`. Appends `[]` to `generated` and `past` and `""` to `input`. The archive and all existing slots are unchanged, and `Valid()` is preserved |
| `SessionState.Session.RemoveUser` | mb.py:97-102 | Does nothing when the id is absent. Otherwise it deletes the first occurrence of the id from `users` and deletes position `id` from `generated`, `past` and `input`. Other slots keep their order and the archive is unchanged. It requires the id to index all three lists, because Python would fault otherwise |
| `SessionState.Session.RemoveLastUser` | mb.py:150-152 | The Remove User button. It does nothing on an empty roster and otherwise removes `users[-1]`. On a valid session it pops the last slot from every list and `Valid()` still holds |
| `SessionState.Session.RecordTurn` | mb.py:157-160 | Only a non-empty input is recorded. Then the input becomes the new last element of `past[u]` and the reply the new last element of `generated[u]`. No other slot and no other key changes |
| `SessionState.Session.RecordTurns` | mb.py:155-160 | The turn loop over the roster yields exactly `Recorded` of the old lists. The roster, drafts and archive are unchanged, and `Valid()` (including equal question/answer counts) is preserved |
| `SessionState.Session.NewChat` | mb.py:47-64 | The archive grows by exactly the flattened `Transcript` when that buffer is non-empty and is unchanged otherwise, so earlier entries stay as they were. `users` is untouched. `generated` and `past` become `|users|` empty lists and `input` becomes `|users|` empty strings. The result is valid whenever the roster is |
| `SessionState.Session.ClearAll` | mb.py:204-206 | The archive becomes empty whatever it held. `users`, `past`, `generated` and `input` are unchanged |
| `SessionState.Session.ShowCombined` | mb.py:170-190 | One pass merges and renders the current state. The result is `Rendered` of the merged list. On a valid session nothing is skipped: there are two lines per recorded turn |
| `SessionState.IndexOf` | mb.py:99 | The position `list.remove` deletes: it holds the id, and no earlier position does |
| `SessionState.RemoveAt` | mb.py:100-102 | `del l[i]` shortens the list by one. Entries before `i` stay in place and later entries move down by one |
| `SessionState.AddKeepsRoster` | mb.py:88-89 | Appending `len(users)` to a roster `[0..n-1]` gives the roster `[0..n]` |
| `SessionState.RemoveLastKeepsRoster` | mb.py:97-102 | On a roster the last id is found at the last position, and removing it leaves a roster |
| `SessionState.RemoveOtherBreaksRoster` | mb.py:97-102 | Removing any id but the last breaks the roster. The largest id survives and equals the new list length, one past the end of the shrunk parallel lists. This is why only `users[-1]` is ever removed |
| `SessionState.Recorded` | mb.py:155-160 | The turn loop never adds or drops a slot |
| `SessionState.RecordedOnRoster` | mb.py:155-160 | Over a roster, slot `k` grows by exactly its own text when its text box was non-empty and is left unchanged otherwise |
| `SessionState.RecordedKeepsPairs` | mb.py:157-160 | Recording inputs into `past` and replies into `generated` keeps `len(past[k]) == len(generated[k])` for every slot, even when ids repeat |
| `Archive.NatToString` | mb.py:56-57 | The slot label is a non-empty string of decimal digits |
| `Archive.NoLeadingZero` | mb.py:56-57 | As with `str()`, the label of a non-zero id does not start with `0`, so together with `DecimalRoundTrip` it is the canonical decimal rendering |
| `Archive.DecimalRoundTrip` | mb.py:56-57 | Reading the label back as a decimal number gives the slot id |
| `Archive.NatToStringInjective` | mb.py:56-57 | Different slots get different labels |
| `Archive.TurnLinesShape` | mb.py:55-57 | Turn `i` of slot `k` contributes line `2i` `"User k: " + past[k][i]` and line `2i+1` `"Bot k: " + generated[k][i]`, in turn order |
| `Archive.SlotLinesShape` | mb.py:54-57 | A slot contributes `2·len(generated[k])` lines when both of its lists are non-empty and none otherwise. Its User and Bot lines alternate |
| `Archive.TranscriptLength` | mb.py:51-57 | The buffer has `2·Σ len(generated[k])` lines over the contributing slots |
| `Archive.TranscriptAlternates` | mb.py:51-57 | The buffer is a run of pairs, each a `"User "` line followed by a `"Bot "` line |
| `Archive.AlternatesAt` | mb.py:197-201 | In such a run, every even position holds a `"User "` line and every odd position a `"Bot "` line. The sidebar's styling of an archived session relies on this |
| `Archive.TranscriptEmptyIff` | mb.py:54-60 | The buffer is empty exactly when no slot has both questions and answers, so exactly then New Chat archives nothing |
| `Archive.ArchiveExample` | mb.py:51-60 | Slot 0 with (hi, hello) and slot 1 with (yo, hey) flatten to `["User 0: hi", "Bot 0: hello", "User 1: yo", "Bot 1: hey"]` |
| `Archive.BuildTranscript` | mb.py:51-57 | The nested loop visits slots in position order and turns in order, and yields exactly `Transcript` |
| `Timeline.TurnEntriesShape` | mb.py:173-177 | Entry `t` of a slot's block is turn `t/2`: a question at even `t`, an answer at odd `t`, with stamp `start + t` |
| `Timeline.CombinedShape` | mb.py:170-177 | The merged list has `2·Σ len(generated[u])` entries over the roster, and entry `t` has stamp `t`. It is a question exactly at even `t`. Every entry names a roster id and an existing turn |
| `Timeline.CombinedPairs` | mb.py:173-177 | Each question entry is immediately followed by the answer entry of the same slot and turn, stamped one higher |
| `Timeline.CombinedInRosterOrder` | mb.py:172-177 | With increasing ids, entries are ordered by slot and then by turn. Each slot's history forms one block, and blocks follow roster order. This is not a chronological interleaving |
| `Timeline.SortByTimestampCorrect` | mb.py:180 | The sort returns a permutation of its input ordered by timestamp |
| `Timeline.SortKeepsSorted` | mb.py:180 | Sorting a list already ordered by timestamp returns it unchanged |
| `Timeline.MergeTimeline` | mb.py:170-180 | The stamping loop followed by the sort yields exactly the roster-ordered `Combined` list, so the sort is a no-op |
| `Timeline.RenderedAtMost` | mb.py:184-190 | The guard shows at most one line per entry |
| `Timeline.RenderedAllShown` | mb.py:184-190 | When every entry's turn still exists, nothing is skipped, and line `t` is the text of entry `t` |
| `Timeline.RenderedAfterReset` | mb.py:184-190 | For entries whose slot still exists: against emptied histories every such entry is skipped, so a stale list renders nothing and no turn is indexed out of range |
| `Timeline.RenderCurrentTimeline` | mb.py:170-190 | For a list merged from the current state, with equal question and answer counts, every entry passes the guard. There are exactly two lines per turn |
| `Timeline.RenderConversation` | mb.py:184-190 | The display loop shows `"User u: past[u][i]"` for a question only when `i < len(past[u])`, and `"Bot (for User u): generated[u][i]"` for an answer only when `i < len(generated[u])`. Otherwise it skips the entry |

## Left out

- Streamlit presentation is not modelled: page setup, sidebar, titles, expanders, checkboxes, `st.info`/`st.success` styling, and the per-user `text_input` whose default is the draft in `input`. The rendered view is modelled as a sequence of strings only. The text-box values reach `RecordTurns` as a parameter.
- LangChain and OpenAI objects (`OpenAI`, `ConversationChain`, `ConversationEntityMemory`, the prompt template) are foreign network and library calls. The reply of `Conversation.run` is a parameter, and replies for empty inputs are ignored.
- New Chat also re-creates the entity memory at mb.py:67. That belongs to the library object, so it is not modelled. The memory store and buffer previews at mb.py:73-79 are a read-only display of that object.
- Configuration widgets (model selector, `K`, the API-key field) are not modelled. They only configure the external calls.
- Without an API key, the intended behaviour is to show a warning and attempt no completion. The code only shows the warning: a non-empty input still reaches `Conversation.run` at mb.py:158, where that name is undefined, so the script faults. The model follows the code's bookkeeping and takes the reply as given, so this path is not represented.
- Streamlit reruns the whole script on every interaction, and the `if key not in st.session_state` initialisation at mb.py:24-37 only runs the first time. Both are modelled by the `Session` constructor, and each button and loop is a separate method.
- `SortByTimestamp` is an insertion sort. It is proved to return a timestamp-ordered permutation but is not separately proved stable. All merged stamps are distinct, so every correct sort gives the same result here.
- New Chat labels lines with the position `k` of `range(len(generated))` and not with the roster id. On a valid session the two coincide, and the model follows the code.
- `RemoveUser` is stated for any id, but `Valid()` is preserved only by `RemoveLastUser`, the only caller in the code. `RemoveOtherBreaksRoster` shows what removing any other id would do.
- `RenderConversation`, `Rendered` and the lemmas about them (`RenderedAtMost`, `RenderedAllShown`, `RenderedAfterReset`) require every entry's slot to still exist (`Renderable`). The guard at mb.py:186 and mb.py:189 tests only the turn index, so an entry of a removed slot would make `past[user_id]` or `generated[user_id]` fault before the guard runs. The code never reaches that state, because the list is rebuilt at mb.py:170-180 in the same pass, after the buttons at mb.py:147-166.
