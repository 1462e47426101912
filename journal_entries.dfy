/** The values the journal stores and the records it saves and restores. */
module JournalEntries {

  /** The game's dialogue data, which the journal consults but does not own.
      `infoOfStage(quest, index)` is the id of the dialogue response that a
      quest's journal index stands for (JournalEntry::idFromIndex), and
      `textOfInfo(topic, infoId)` is that response's display text. Both are
      lookups into the world's record store; as function values they give
      the same answer whenever they are asked the same question. */
  datatype GameData = GameData(
    infoOfStage: (string, int) -> string,
    textOfInfo: (string, string) -> string)

  /** One logged response of a quest or a topic (MWDialogue::Entry). */
  datatype Entry = Entry(infoId: string, text: string)

  /** One line of the chronological journal (StampedJournalEntry): an entry
      that also names the quest it belongs to. */
  datatype StampedEntry = StampedEntry(topic: string, infoId: string, text: string)

  /** JournalEntry::idFromIndex. */
  function IdFromIndex(data: GameData, id: string, index: int): string
  {
    data.infoOfStage(id, index)
  }

  /** StampedJournalEntry::makeFromQuest: the journal line for reaching stage
      `index` of quest `id`. */
  function MakeFromQuest(data: GameData, id: string, index: int): (e: StampedEntry)
    ensures e.topic == id && e.infoId == IdFromIndex(data, id, index)
  {
    var infoId := IdFromIndex(data, id, index);
    StampedEntry(id, infoId, data.textOfInfo(id, infoId))
  }

  /** JournalEntry(topicId, infoId), as a topic stores it. */
  function TopicEntry(data: GameData, topicId: string, infoId: string): Entry
  {
    Entry(infoId, data.textOfInfo(topicId, infoId))
  }

  /** The part of a journal line a quest's own log keeps (the deliberate
      slicing of a StampedJournalEntry into its Entry base). */
  function Base(e: StampedEntry): Entry
  {
    Entry(e.infoId, e.text)
  }

  /** ESM::JournalEntry::mType. Any other stored value is kept as Unknown. */
  datatype EntryType = TypeJournal | TypeTopic | TypeQuest | TypeUnknown(code: int)

  /** The payload of a REC_JOUR record (ESM::JournalEntry). */
  datatype JournalRecord = JournalRecord(kind: EntryType, topic: string, info: string, text: string)

  /** The payload of a REC_QUES record (ESM::QuestState). */
  datatype QuestState = QuestState(topic: string, state: int)

  /** A record of the saved-game stream, by its record type: REC_QUES,
      REC_JOUR, or a type some other part of the game owns. */
  datatype SavedRecord =
    | Ques(quest: QuestState)
    | Jour(entry: JournalRecord)
    | Unrelated(recordType: int)

  /** The record `write` emits for one log entry owned by `owner`. */
  function EntryRecord(kind: EntryType, owner: string, e: Entry): SavedRecord
  {
    Jour(JournalRecord(kind, owner, e.infoId, e.text))
  }

  /** The entry `insertEntry` builds from a loaded record. */
  function EntryOf(r: JournalRecord): Entry
  {
    Entry(r.info, r.text)
  }

  /** The journal line `push_back` builds from a loaded record. */
  function StampedOf(r: JournalRecord): StampedEntry
  {
    StampedEntry(r.topic, r.info, r.text)
  }
}
