# The dialogue journal of OpenMW, modelled in Dafny

This project models `MWDialogue::Journal` (`apps/openmw/mwdialogue/journalimp.cpp`).
The journal is the player's progress ledger and has three containers:

- `mJournal`: the chronological journal, one line per quest response recorded, in the order recorded.
- `mQuests`: the quests by id. Each quest has a stage (its journal index) and its own log.
- `mTopics`: the dialogue topics by id. Each topic has a log of the responses heard.

The journal writes these as records of a saved game and reads them back.

The project has five modules, one per file:

- `OrderedMaps` (`ordered_maps.dfy`): `std::map<std::string, V>` as a map plus its iteration order. The order is the ascending order of `std::string`'s `operator<`, which the module defines.
- `JournalEntries` (`journal_entries.dfy`): the values the journal stores and the records of the saved-game stream. `REC_QUES` records carry an `ESM::QuestState`; `REC_JOUR` records carry an `ESM::JournalEntry` with its entry type.
- `JournalModel` (`journal_model.dfy`): the journal's state as a value (`Ledger`), and every operation as a function of it.
- `JournalProperties` (`journal_properties.dfy`): what the operations promise, as lemmas. These cover idempotence of `addEntry`, the stage of a quest, the layout of what `write` emits, that `countSavedGameRecords` counts it, and that reading back what `write` emitted restores the journal.
- `JournalImpl` (`journal.dfy`): the class `Journal`. Its fields `journal`, `quests` and `topics` are updated in place by its methods. Each method, loops included, is proved to compute a `JournalModel` function of the contents: `GetQuest`/`GetTopic` compute `EnsureQuest`/`EnsureTopic`, `Clear` computes `Cleared`, `AddEntry`, `SetJournalIndex` and `AddTopic` compute their namesakes, `GetJournalIndex` computes `JournalIndex`, `CountSavedGameRecords` computes `RecordCount`, the `Write` methods compute `Save` and its parts, and `ReadRecord` computes `Read`.

The game's data store is not part of this model. The journal asks it two things:

- which dialogue response stands for stage `index` of quest `id` (`JournalEntry::idFromIndex`);
- the text of a response.

Both arrive as a `GameData` parameter of two functions.

## Model

| member | source | states |
|---|---|---|
| OrderedMaps.Insert | apps/openmw/mwdialogue/journalimp.cpp:27-28 | `std::map::insert` adds an absent key with the given value and leaves a present key's value as it was; the iteration order stays sorted and lists exactly the keys |
| OrderedMaps.Assign | apps/openmw/mwdialogue/journalimp.cpp:74-76 | writing through the reference to a held key changes that key's value only; key set and iteration order are unchanged |
| OrderedMaps.SizeIsKeyCount | apps/openmw/mwdialogue/journalimp.cpp:139 | `mQuests.size()` equals the number of quests the iteration visits |
| JournalModel.Cleared | apps/openmw/mwdialogue/journalimp.cpp:55-60 | after `clear` the journal, the quests and the topics are all empty, and the state meets the journal's invariants |
| JournalModel.EnsureQuest | apps/openmw/mwdialogue/journalimp.cpp:21-34 | get-or-create: afterwards `id` is held, its quest is the stored one or a new stage-0 quest with an empty log, and every other quest is unchanged |
| JournalModel.EnsureTopic | apps/openmw/mwdialogue/journalimp.cpp:36-49 | get-or-create for topics: `id` is held, its topic is the stored one or a new one with an empty log, and every other topic is unchanged |
| JournalModel.AddEntry | apps/openmw/mwdialogue/journalimp.cpp:62-81 | if the journal already has a line of quest `id` with the response for stage `index`, nothing changes; otherwise exactly one line is appended, the quest (created if absent) gains that response at the end of its log, no other quest changes, and topics are untouched; invariants and a repetition-free journal are preserved |
| JournalModel.SetJournalIndex | apps/openmw/mwdialogue/journalimp.cpp:83-88 | the quest (created if absent) gets stage `index` and keeps its log; the journal, the topics and every other quest are unchanged |
| JournalModel.AddTopic | apps/openmw/mwdialogue/journalimp.cpp:90-95 | the topic (created if absent) gains the response at the end of its log even if already heard; the journal and the quests are unchanged |
| JournalModel.Read | apps/openmw/mwdialogue/journalimp.cpp:203-235 | dispatch on record type and entry type. A Type_Quest entry is appended to its quest's log (quest created if absent). A Type_Journal entry is appended to the journal. A Type_Topic entry is appended to its topic's log. Any other entry type and any other record type change nothing. A `REC_QUES` record adds a quest with that stage and an empty log only when the quest is absent, and never overwrites one |
| JournalModel.EntryRecords | apps/openmw/mwdialogue/journalimp.cpp:164-173 | one `REC_JOUR` record per log entry, in log order, each tagged with the entry type and the owning quest's or topic's id |
| JournalModel.JournalRecords | apps/openmw/mwdialogue/journalimp.cpp:176-184 | one Type_Journal record per journal line, in chronological order |
| JournalImpl.Journal.constructor | apps/openmw/mwdialogue/journalimp.cpp:52-53 | a new journal is empty and meets the invariants |
| JournalImpl.Journal.GetQuest | apps/openmw/mwdialogue/journalimp.cpp:21-34 | the quest map becomes `EnsureQuest` of the old one, the returned quest is the one now filed under `id`, and the other containers are untouched |
| JournalImpl.Journal.GetTopic | apps/openmw/mwdialogue/journalimp.cpp:36-49 | the topic map becomes `EnsureTopic` of the old one, the returned topic is the one now filed under `id`, and the other containers are untouched |
| JournalImpl.Journal.Clear | apps/openmw/mwdialogue/journalimp.cpp:55-60 | the new state is the cleared state |
| JournalImpl.Journal.AddEntry | apps/openmw/mwdialogue/journalimp.cpp:62-81 | the linear scan, early return, append and quest update leave exactly the state `JournalModel.AddEntry` describes, and keep the invariants |
| JournalImpl.Journal.SetJournalIndex | apps/openmw/mwdialogue/journalimp.cpp:83-88 | the new state is `JournalModel.SetJournalIndex` of the old one |
| JournalImpl.Journal.AddTopic | apps/openmw/mwdialogue/journalimp.cpp:90-95 | the new state is `JournalModel.AddTopic` of the old one |
| JournalImpl.Journal.GetJournalIndex | apps/openmw/mwdialogue/journalimp.cpp:97-105 | 0 for a quest not held, otherwise the held quest's stage; this is `JournalModel.JournalIndex` of the contents, so `JournalIndexOfSet` and `AddEntryKeepsStages` apply to it |
| JournalImpl.Journal.CountSavedGameRecords | apps/openmw/mwdialogue/journalimp.cpp:137-150 | the two loops over the quests and the topics, plus the journal's length, compute one per quest plus the lengths of all quest logs, the journal and all topic logs, and this equals the number of records `Write` emits |
| JournalImpl.Journal.Write | apps/openmw/mwdialogue/journalimp.cpp:152-201 | the emitted records are exactly `JournalModel.Save` of the contents: quest blocks in id order, then the journal, then topic logs in id order |
| JournalImpl.Journal.WriteQuests | apps/openmw/mwdialogue/journalimp.cpp:154-174 | for each quest in id order, its `REC_QUES` state record followed by its log |
| JournalImpl.Journal.WriteJournal | apps/openmw/mwdialogue/journalimp.cpp:176-184 | the journal lines as Type_Journal records, in order |
| JournalImpl.Journal.WriteTopics | apps/openmw/mwdialogue/journalimp.cpp:186-200 | for each topic in id order, its log as Type_Topic records |
| JournalImpl.Journal.WriteLog | apps/openmw/mwdialogue/journalimp.cpp:164-173 | the inner loop emits one record per log entry in order, owned by the quest's or topic's id |
| JournalImpl.Journal.ReadRecord | apps/openmw/mwdialogue/journalimp.cpp:203-235 | the new state is `JournalModel.Read` of the old state and the record, and the invariants are kept |
| JournalProperties.AddEntryIdempotent | apps/openmw/mwdialogue/journalimp.cpp:64-68 | calling `addEntry` twice with the same arguments has the effect of calling it once |
| JournalProperties.RepeatedStageLoggedOnce | apps/openmw/mwdialogue/journalimp.cpp:62-76 | stages 10, 20, 10 of one quest log two lines, in the journal and in the quest's log alike, when the two stages are different responses |
| JournalProperties.RepeatedTopicLoggedTwice | apps/openmw/mwdialogue/journalimp.cpp:90-95 | hearing the same topic response twice logs it twice |
| JournalProperties.JournalIndexOfSet | apps/openmw/mwdialogue/journalimp.cpp:97-105 | a quest's stage reads 0 after `clear`, reads what `setJournalIndex` set, and is unaffected by setting another quest's stage |
| JournalProperties.AddEntryKeepsStages | apps/openmw/mwdialogue/journalimp.cpp:62-81 | `addEntry` changes no quest's stage |
| JournalProperties.SaveLayout | apps/openmw/mwdialogue/journalimp.cpp:137-201 | `write` emits exactly `countSavedGameRecords` records: first the quest records, then one record per journal line in order, then the topic records |
| JournalProperties.QuestRecordsShape | apps/openmw/mwdialogue/journalimp.cpp:154-174 | the quest part holds exactly one `REC_QUES` record per quest (counted by `StateCount`) and one Type_Quest record per logged entry: its length is the number of quests plus the total of their logs, and every record is one of those two kinds |
| JournalProperties.TopicRecordsShape | apps/openmw/mwdialogue/journalimp.cpp:186-200 | the topic part holds one Type_Topic record per logged entry, and nothing else |
| JournalProperties.ClearedSavesNothing | apps/openmw/mwdialogue/journalimp.cpp:137-150 | after `clear` the count is 0 and `write` emits nothing |
| JournalProperties.ReadKeepsInvariants | apps/openmw/mwdialogue/journalimp.cpp:203-235 | `readRecord` keeps both maps sorted with every value under its own id, and leaves no topic without a response |
| JournalProperties.LoadKeepsInvariants | apps/openmw/mwdialogue/journalimp.cpp:203-235 | so does reading any sequence of records |
| JournalProperties.LoadQuestEntries | apps/openmw/mwdialogue/journalimp.cpp:212-215 | reading a held quest's Type_Quest records appends them to its log in order |
| JournalProperties.LoadQuestBlock | apps/openmw/mwdialogue/journalimp.cpp:154-174 | reading one quest's block restores that quest, stage and log, when it was absent |
| JournalProperties.LoadQuestRecords | apps/openmw/mwdialogue/journalimp.cpp:154-174 | reading the quest part restores every quest written |
| JournalProperties.LoadJournalRecords | apps/openmw/mwdialogue/journalimp.cpp:176-184 | reading the journal part appends the written lines in order |
| JournalProperties.LoadTopicEntries | apps/openmw/mwdialogue/journalimp.cpp:222-225 | reading a topic's Type_Topic records creates the topic if need be and appends them in order |
| JournalProperties.LoadTopicRecords | apps/openmw/mwdialogue/journalimp.cpp:186-200 | reading the topic part restores every topic written |
| JournalProperties.SaveLoadRoundTrip | apps/openmw/mwdialogue/journalimp.cpp:152-235 | reading what `write` emitted into a cleared journal gives back the same journal, quests and topics |
| JournalProperties.QuestStateAfterItsEntriesIsDropped | apps/openmw/mwdialogue/journalimp.cpp:228-234 | a `REC_QUES` record read after a Type_Quest record of the same quest is ignored, and the quest keeps stage 0, because `insert` does not overwrite |
| JournalProperties.ClearedMirrors | apps/openmw/mwdialogue/journalimp.cpp:55-60 | after `clear` every quest's log is its journal lines' entries (trivially, all are empty) |
| JournalProperties.AddEntryKeepsMirror | apps/openmw/mwdialogue/journalimp.cpp:62-76 | `addEntry` appends the journal line and the quest's entry together, so every quest's log stays the entries of its journal lines, in order, and every line's quest stays held |
| JournalProperties.SetJournalIndexKeepsMirror | apps/openmw/mwdialogue/journalimp.cpp:83-88 | `setJournalIndex` keeps that mirror; a quest it creates has no journal lines and an empty log |
| JournalProperties.AddTopicKeepsMirror | apps/openmw/mwdialogue/journalimp.cpp:90-95 | `addTopic` keeps that mirror |
| JournalProperties.QuestLogDistinct | apps/openmw/mwdialogue/journalimp.cpp:64-68 | a journal without two lines of the same quest and response yields, for each quest, a log without a repeated response |
| JournalProperties.QuestLogsDistinct | apps/openmw/mwdialogue/journalimp.cpp:62-76 | in a state where the logs mirror a repetition-free journal, no quest's log holds the same response twice, although the scan looks only at the journal |
| JournalProperties.ReadCanBreakMirror | apps/openmw/mwdialogue/journalimp.cpp:212-215 | a Type_Quest record read into an empty journal gives the quest an entry with no journal line: `readRecord` does not keep the mirror |

## Left out

- The message box `addEntry` raises (lines 78-80) is a call into the user interface and is left out.
- The `ESMWriter`/`ESMReader` byte streams are not modelled. Record framing, field encoding and the `int32_t` record type are left out: a saved game is a sequence of `SavedRecord` values, and every record type other than `REC_QUES` and `REC_JOUR` is one `Unrelated` value.
- The date stamp of a journal line is not modelled. `makeFromQuest` sets it (line 70), `write` copies it into the record (line 180) and `readRecord` restores it with the line (line 219); it passes through unchanged and the journal never inspects it.
- Whatever `Quest::write` puts into an `ESM::QuestState` besides the quest's id and stage is not modelled.
- `JournalEntry::idFromIndex` and the response text lookup go into the game's data store, which is not part of this model. Both are parameters (`GameData`); a failing lookup, which throws in the game, is not modelled.
- `Quest` and `Topic` (`apps/openmw/mwdialogue/quest.cpp`, `topic.cpp`) are not part of this model. Their `addEntry`, `insertEntry` and `setIndex` are modelled as appending to the log and setting the stage, and `Quest(id)` as stage 0 with an empty log. Any de-duplication or stage update that `Quest::addEntry` or `Topic::addEntry` may perform is therefore not captured; `RepeatedTopicLoggedTwice` rests on `Topic::addEntry` appending unconditionally.
- JournalImpl.Journal.CountSavedGameRecords: does not model `int` overflow of the count, because the model's integers are unbounded.
- The iterator accessors `begin`, `end`, `questBegin`, `questEnd`, `topicBegin` and `topicEnd` (lines 107-135) only hand out read-only views of the fields, and are left out.
- `components/esm/loadench.hpp` (the enchantment record) is unrelated to the journal and is not modelled.
- `addEntry` scans only `mJournal` (lines 66-68), not the quest's log. A quest's log is free of repeated responses only because the mutators keep each quest's log equal to its journal lines (`LogsMirrorJournal`, `QuestLogsDistinct`). `readRecord` does not check this, and a saved game whose Type_Quest records have no matching journal lines breaks it (`ReadCanBreakMirror`).
- JournalProperties.SaveLoadRoundTrip: holds only when every topic has a logged response (`TopicsHeard`, part of `Journal.Valid`). A topic with an empty log writes no record and does not come back. `addTopic` creates the topic (line 92) before the text lookup of `JournalEntry(topicId, infoId)` (line 94). That lookup cannot fail in the model, so every modelled state keeps the invariant. In the game a lookup that throws leaves the new topic with an empty log, and the round trip drops it.
- A `REC_QUES` record goes through `mQuests.insert` (line 233), so it never overwrites a stage, and the order in which records are read matters (`QuestStateAfterItsEntriesIsDropped`).
- An entry type other than Quest, Journal or Topic falls through the `switch` (lines 210-226), and the record is ignored.
