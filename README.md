# Relationship-Bot prompt store and guild decisions, in Dafny

This project models the logic of a Discord bot that sends members a weekly
prompt and archives the prompts it has used. It covers two parts:

- **The prompt store** (`prompts.dfy`, module `Prompts`). This is class
  `PromptManager`. The prompts folder is a map from file name to the list of
  prompt texts in that file. The used-prompt log (`used_prompts.json`) is an
  ordered dictionary from file name to archived records. Each record holds the
  prompt, the origin file and the thread link. `save_prompt` and
  `move_prompt_to_used` load a JSON file, change it and write it back;
  `get_random_prompt` and `review_used_prompts` only read; `__init__` writes
  an empty log only when none exists. Here those files are the fields
  `files` and `log` of the `PromptManager` object, and the methods that write
  change them in place. Key order in the log is kept (`UsedLog.order`)
  because the review text lists files in the order they were first archived.
- **The guild decisions of the bot** (`bot.dfy`, module `Bot`):
  - `getPrivateChannels`;
  - which channels `!init` creates, including its `for`/`else` search for a
    member's existing private channel;
  - the `<name>-private` naming;
  - the `!debug` clamp and the `log_debug` gate.

  Channels and members are plain values. A guild is its sequence of text
  channels and its sequence of members.

`text.dfy` (module `Text`) holds Python's `in`, `startswith` and `endswith`
on strings. `wrappers.dfy` holds `Option`.

Choices the model makes:

- The source's random draws (`random.choice`) are free nondeterministic
  choices (`:|`). The model states no distribution.
- The prompt folder and the used log exist, or not, before the manager is
  built. The constructor receives this starting state as `Option` values.
- `move_prompt_to_used` on a file that does not exist fails at `open` before
  anything is written. The model returns `Failed(FileNotFound(..))` and
  changes nothing.
- The source creates whichever of the four base channels are missing,
  before it reads the private channels (main.py:77-83). `PlanInit` reads
  the private channels from the channels as they were before. `BaseChannelsLeavePrivatesAlone` proves this gives the same
  result, because no base channel name contains "private".
- Discord compares members by identifier. Here a `Member` value is compared
  as a whole, and one identifier is assumed to have one value.

Three behaviours of the code are worth stating:

- Appending a prompt keeps duplicates (prompt_manager.py:56).
- Drawing a prompt removes nothing (prompt_manager.py:19-42). Removal happens
  only in `move_prompt_to_used`.
- `move_prompt_to_used` logs a record even when the text was not in the file
  (prompt_manager.py:70-89).

## Model

| member | source | states |
|---|---|---|
| `Prompts.PromptManager.constructor` | prompt_manager.py:9-17 | the folder read as empty when missing; an existing used log is kept unchanged, an empty one is created only when there was none |
| `Prompts.PromptManager.GetRandomPrompt` | prompt_manager.py:19-42 | fails with NoPromptFiles iff no file name ends in ".json" other than "used_prompts.json"; fails otherwise only with EmptyPromptFile for a candidate whose list is empty; on success the file is a candidate and the prompt is one of its texts; nothing is written |
| `Prompts.AppendPrompt` | prompt_manager.py:47-60 | the saved file's list is its old list (empty if the file was missing) followed by the text; every other file is unchanged and no file disappears |
| `Prompts.PromptManager.SavePrompt` | prompt_manager.py:44-60 | the folder becomes `AppendPrompt` of the old folder; the used log is unchanged |
| `Prompts.AppendKeepsDuplicates` | prompt_manager.py:56 | saving a text the file already holds adds a second copy: its count grows by exactly one |
| `Prompts.SavedFileIsDrawable` | prompt_manager.py:21-24 | after saving to a ".json" file other than the log's name, that file is a draw candidate and is non-empty |
| `Prompts.IndexOf` | prompt_manager.py:70-71 | the position of the first occurrence: it holds the text and nothing before it does |
| `Prompts.RemoveFirst` | prompt_manager.py:70-71 | a present text loses exactly its first occurrence (the list with that position cut out); an absent text leaves the list unchanged |
| `Prompts.RemoveFirstTakesOne` | prompt_manager.py:70-71 | removing a present text shortens the list by one and takes exactly one copy out of its multiset |
| `Prompts.RemoveAfterAppend` | prompt_manager.py:52-75 | save then move of the same text: if the file had it already, the older copy goes and the new one stays last; otherwise the file is as before |
| `Prompts.DeleteAll` | prompt_manager.py:87 | `str.replace(pat, "")` scanning left to right; the result is never longer than the input |
| `Prompts.DeleteAllWithoutMatch` | prompt_manager.py:87 | a name without ".json" is kept verbatim as origin_file |
| `Prompts.DeleteJsonAfter` | prompt_manager.py:87 | after a prefix free of ".json", the next ".json" is the occurrence deleted, and the rest is processed on its own |
| `Prompts.OriginOfJsonFile` | prompt_manager.py:85-89 | the origin_file of "<base>.json" is "<base>" when the base holds no ".json" |
| `Prompts.Archive` | prompt_manager.py:81-89 | exactly one record is appended under the file name; a missing key is created and put last in key order; earlier records and all other keys are unchanged; the log stays well formed |
| `Prompts.PromptManager.MovePromptToUsed` | prompt_manager.py:62-93 | a missing file fails with FileNotFound and changes nothing; otherwise the file loses the first copy of the text (if any), and a record of the text, the name without ".json" and the verbatim thread link is archived even if the text was absent |
| `Prompts.Review` | prompt_manager.py:95-113 | the output is exactly "No used prompts available." iff the log is empty; otherwise it starts with "Used Prompts:\n", followed by one "From File" header per key in stored order, each followed by one entry per record in stored order |
| `Prompts.PromptManager.ReviewUsedPrompts` | prompt_manager.py:95-113 | the nested loops that build the message yield `Review` of the log |
| `Prompts.PromptManager.AppendRecordEntries` | prompt_manager.py:107-112 | the inner loop appends one entry per record, in stored order: its result is `AppendEntries` of the message and the records |
| `Prompts.EntriesAppend` | prompt_manager.py:107-112 | the entries of two runs of records are the two renderings one after the other, so records appear in stored order |
| `Prompts.SectionsFrame` | prompt_manager.py:105-112 | the rendering of a list of keys depends only on those keys' records |
| `Prompts.ReviewAfterArchiveNewFile` | prompt_manager.py:82-112 | archiving under a new file name appends one header and one entry to the end of the review and changes nothing before them |
| `Bot.ClampDebugLevel` | main.py:249 | the stored level lies in 0..3, equals the request when it is already in range, and is 0 below and 3 above |
| `Bot.DebugSettings.constructor` | main.py:11 | the debug level starts at 3 |
| `Bot.DebugSettings.SetLevel` | main.py:246-249 | `!debug` leaves the level at the clamped request, within 0..3 |
| `Bot.DebugLine` | main.py:14-16 | a line is printed iff the debug level is at least the message's level, and the line is "[DEBUG] " followed by the message |
| `Bot.NonBots` | main.py:291-295 | a member is kept iff it is in the channel and is not a bot |
| `Bot.NonBotsAppend` | main.py:291-295 | the members keep their original order: filtering a concatenation is concatenating the filtered parts |
| `Bot.PrivateChannels` | main.py:286-299 | the keys are exactly the text channels whose name contains "private", and each maps to its non-bot members |
| `Bot.GetPrivateChannels` | main.py:286-299 | the loops building the dictionary yield `PrivateChannels` of the text channels |
| `Bot.MissingNames` | main.py:77-80 | a base channel is created iff no text channel already has its name |
| `Bot.MissingBaseChannels` | main.py:77-80 | the first loop of init yields `MissingNames` of the four base names |
| `Bot.PrivateRequests` | main.py:84-93 | a channel named "<name>-private" is requested for a member iff the member is not a bot and appears in no existing private channel's member list |
| `Bot.PlanPrivateChannels` | main.py:84-99 | the loop with the `for`/`else` search yields `PrivateRequests` |
| `Bot.PlanInit` | main.py:70-99 | init creates the missing base channels and the private channels that `PrivateRequests` names |
| `Bot.PrivateNameIsPrivate` | main.py:93 | every name made as "<name>-private" (also at main.py:217) contains "private", so getPrivateChannels recognises it |
| `Bot.BaseNamesAreNotPrivate` | main.py:77 | none of "general", "responses", "add-prompts", "bot-messages" contains "private" |
| `Bot.BaseChannelsLeavePrivatesAlone` | main.py:77-83 | adding base channels does not change the private-channel dictionary |
| `Bot.PrivateChannelsGrow` | main.py:286-299 | adding channels keeps every member that already had a private channel |
| `Bot.CreatedChannelIsFound` | main.py:88-93 | any channel whose name contains "private" and that includes a non-bot member gives that member a private channel, whatever exact name the platform stores |
| `Bot.NothingMissing` | main.py:78-80 | when every base name exists, init creates no base channel |
| `Bot.NobodyNeedsChannel` | main.py:84-91 | when every non-bot member has a private channel, init creates none |
| `Bot.InitIsIdempotent` | main.py:76-99 | after init's plan has been carried out, running init again creates nothing; a created private channel only needs a name containing "private" and its owner among its members |

## Left out

- Discord plumbing is not modelled: the client, intents, `bot.run`, events, sending messages, history fetches and permission overwrites (main.py:19-25, 51-53, 111-170, 211-236, 253-284, 302). These are calls into a library not shown.
- main.py:100-107 is not modelled. After creating a private channel, init sends a welcome message to every private channel whose name contains the member's name. That is a message send.
- on_member_join (main.py:211-236) creates a channel without checking for an existing one; only its naming is modelled, through `PrivateChannelName`.
- The manager methods that are called but not defined in prompt_manager.py are not modelled. main.py calls `get_prompt_for_channel`, `add_response`, `all_responses_collected`, `complete_prompt`, `get_notifications`, `toggle_notification`, `set_notification`, `create_prompt_file`, `add_prompt_to_file` and `list_prompt_files`. PromptFileSelectView.py also calls `get_prompt_count` (PromptFileSelectView.py:12) and `write_prompt` (PromptFileSelectView.py:23). Their behaviour is not in the source. on_message's response collection (main.py:117-146) and `!notify` (main.py:242) go through them.
- PromptFileSelectView.py, NotificationPreferenceView.py and the copies of those views in main.py:172-209 are not modelled: they are UI widgets over those undefined methods.
- File-system and JSON I/O are not modelled: `os.path.exists`, `makedirs`, `open`, `json.load`/`dump`, indentation, and `load_notify_data`/`save_notify_data` (main.py:36-49). A JSON file that does not parse, or that is not a list of strings, is not modelled either. Files are in-memory maps whose contents are lists of strings.
- File names in the folder that are not regular files are not modelled (os.listdir).
- Prompts.PromptManager.MovePromptToUsed: assumes the used log exists, because `__init__` creates it. If it were deleted between calls, the source would fail after rewriting the prompt file; the model does not capture that.
- Prompts.PromptManager.SavePrompt: assumes the file name is a plain name of a file inside the prompts folder. The source joins it onto "prompts" (prompt_manager.py:45). An empty name then names the folder itself and fails with IsADirectoryError at prompt_manager.py:53. A name with a missing sub-directory, such as "sub/x.json", fails at prompt_manager.py:49. The model instead adds such a name as a key.
- Prompts.PromptManager.MovePromptToUsed: assumes the same plain file names (prompt_manager.py:63). A name that is a directory is not modelled; the model treats every name as a key of the folder map.
- Prompts.PromptManager.GetRandomPrompt: states no distribution for the two `random.choice` draws; the source picks uniformly.
- The `print` output of `debug`, `init` and `test`, and the `!debug` reply, are not modelled. `DebugLine` returns the line log_debug would print instead of printing it.
- log_debug's default `level=1` (main.py:14) is not modelled: `DebugLine` takes the level explicitly, and every call in main.py passes one (main.py:236).
- The key order of getPrivateChannels' dictionary is not modelled: `PrivateChannels` is a `map`. Only the send loops at main.py:100 and main.py:272 depend on that order, and they are not modelled.
- The `!test` and `!info` commands are not modelled: they only send or print.
