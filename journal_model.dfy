/** The journal's state as a value, and each of its operations as a function of
    that value: the specification the Journal class is proved against. */
module JournalModel {
  import opened OrderedMaps
  import opened JournalEntries

  /** MWDialogue::Quest: its id, its journal index (stage) and its log. */
  datatype Quest = Quest(id: string, index: int, entries: seq<Entry>)

  /** MWDialogue::Topic: its id and its log. */
  datatype Topic = Topic(id: string, entries: seq<Entry>)

  /** The three containers of MWDialogue::Journal: mJournal, mQuests, mTopics. */
  datatype Ledger = Ledger(
    journal: seq<StampedEntry>,
    quests: OrderedMap<Quest>,
    topics: OrderedMap<Topic>)

  /** Quest(id): a quest nobody has advanced yet. */
  function NewQuest(id: string): Quest
  {
    Quest(id, 0, [])
  }

  /** Topic(id). */
  function NewTopic(id: string): Topic
  {
    Topic(id, [])
  }

  /** Quest(const ESM::QuestState&): a restored quest with an empty log. */
  function QuestFromState(s: QuestState): Quest
  {
    Quest(s.topic, s.state, [])
  }

  /** Quest::addEntry and Quest::insertEntry: append to the log. */
  function AppendToQuest(q: Quest, e: Entry): Quest
  {
    q.(entries := q.entries + [e])
  }

  /** Topic::addEntry and Topic::insertEntry: append to the log. */
  function AppendToTopic(t: Topic, e: Entry): Topic
  {
    t.(entries := t.entries + [e])
  }

  /** Both maps iterate in key order, and every quest and topic is filed
      under its own id (getQuest, getTopic and the REC_QUES load all insert
      a value whose id is the key). */
  ghost predicate Wellformed(l: Ledger)
  {
    && Valid(l.quests)
    && Valid(l.topics)
    && (forall k | k in l.quests.items :: l.quests.items[k].id == k)
    && (forall k | k in l.topics.items :: l.topics.items[k].id == k)
  }

  /** Every topic has a logged response. `addTopic` creates a topic and then
      appends to it; the model has no failing text lookup between the two, so
      every state the modelled operations reach has this property. In the
      game a lookup that throws leaves the new topic with an empty log, which
      `write` does not save. `write` relies on this to restore all topics. */
  ghost predicate TopicsHeard(l: Ledger)
  {
    forall k | k in l.topics.items :: l.topics.items[k].entries != []
  }

  /** No two journal lines share their quest and their response. */
  ghost predicate JournalDistinct(journal: seq<StampedEntry>)
  {
    forall i, j | 0 <= i < j < |journal| ::
      journal[i].topic != journal[j].topic || journal[i].infoId != journal[j].infoId
  }

  /** The entries of quest `id` among the journal lines, in journal order. */
  function QuestLog(journal: seq<StampedEntry>, id: string): seq<Entry>
  {
    if journal == [] then []
    else
      var last := journal[|journal| - 1];
      QuestLog(journal[..|journal| - 1], id) + (if last.topic == id then [Base(last)] else [])
  }

  /** Every quest's log is the entries of its own journal lines, in order,
      and every journal line's quest is held. `addEntry` writes a line and its
      quest's entry together; nothing in `readRecord` checks this. */
  ghost predicate LogsMirrorJournal(l: Ledger)
  {
    && (forall k | k in l.quests.items :: l.quests.items[k].entries == QuestLog(l.journal, k))
    && (forall j | 0 <= j < |l.journal| :: l.journal[j].topic in l.quests.items)
  }

  /** The state after `clear` (and of a new Journal). */
  function Cleared(): (l: Ledger)
    ensures Wellformed(l) && TopicsHeard(l)
    ensures l.journal == [] && l.quests.items == map[] && l.topics.items == map[]
  {
    Ledger([], OrderedMaps.Empty(), OrderedMaps.Empty())
  }

  /** The quest `getQuest(id)` hands out: the stored one, or a fresh Quest(id). */
  function QuestOr(quests: OrderedMap<Quest>, id: string): Quest
  {
    if id in quests.items then quests.items[id] else NewQuest(id)
  }

  /** The topic `getTopic(id)` hands out: the stored one, or a fresh Topic(id). */
  function TopicOr(topics: OrderedMap<Topic>, id: string): Topic
  {
    if id in topics.items then topics.items[id] else NewTopic(id)
  }

  /** getJournalIndex: the stage of a quest, 0 for a quest not held. */
  function JournalIndex(l: Ledger, id: string): int
  {
    QuestOr(l.quests, id).index
  }

  /** The quest map after `getQuest(id)`: get-or-create. */
  function EnsureQuest(quests: OrderedMap<Quest>, id: string): (r: OrderedMap<Quest>)
    ensures Valid(quests) ==> Valid(r)
    ensures r.items.Keys == quests.items.Keys + {id}
    ensures r.items[id] == QuestOr(quests, id)
    ensures forall k | k in quests.items :: r.items[k] == quests.items[k]
  {
    Insert(quests, id, NewQuest(id))
  }

  /** The topic map after `getTopic(id)`: get-or-create. */
  function EnsureTopic(topics: OrderedMap<Topic>, id: string): (r: OrderedMap<Topic>)
    ensures Valid(topics) ==> Valid(r)
    ensures r.items.Keys == topics.items.Keys + {id}
    ensures r.items[id] == TopicOr(topics, id)
    ensures forall k | k in topics.items :: r.items[k] == topics.items[k]
  {
    Insert(topics, id, NewTopic(id))
  }

  /** The journal already holds a line of quest `id` with response `infoId`. */
  predicate Heard(journal: seq<StampedEntry>, id: string, infoId: string)
  {
    exists j | 0 <= j < |journal| :: journal[j].topic == id && journal[j].infoId == infoId
  }

  /** Journal::addEntry(id, index). */
  function AddEntry(l: Ledger, data: GameData, id: string, index: int): (r: Ledger)
    ensures Wellformed(l) ==> Wellformed(r)
    ensures TopicsHeard(l) ==> TopicsHeard(r)
    ensures JournalDistinct(l.journal) ==> JournalDistinct(r.journal)
    ensures r.topics == l.topics
    ensures Heard(l.journal, id, IdFromIndex(data, id, index)) ==> r == l
    ensures !Heard(l.journal, id, IdFromIndex(data, id, index)) ==>
      && r.journal == l.journal + [MakeFromQuest(data, id, index)]
      && r.quests.items == l.quests.items[id := AppendToQuest(QuestOr(l.quests, id), Base(MakeFromQuest(data, id, index)))]
  {
    var infoId := IdFromIndex(data, id, index);
    if Heard(l.journal, id, infoId) then l
    else
      var entry := MakeFromQuest(data, id, index);
      var quests := EnsureQuest(l.quests, id);
      Ledger(l.journal + [entry], Assign(quests, id, AppendToQuest(quests.items[id], Base(entry))), l.topics)
  }

  /** Journal::setJournalIndex(id, index). */
  function SetJournalIndex(l: Ledger, id: string, index: int): (r: Ledger)
    ensures Wellformed(l) ==> Wellformed(r)
    ensures TopicsHeard(l) ==> TopicsHeard(r)
    ensures r.journal == l.journal && r.topics == l.topics
    ensures JournalIndex(r, id) == index
    ensures r.quests.items == l.quests.items[id := QuestOr(l.quests, id).(index := index)]
  {
    var quests := EnsureQuest(l.quests, id);
    l.(quests := Assign(quests, id, quests.items[id].(index := index)))
  }

  /** Journal::addTopic(topicId, infoId): no check for a repeated response. */
  function AddTopic(l: Ledger, data: GameData, topicId: string, infoId: string): (r: Ledger)
    ensures Wellformed(l) ==> Wellformed(r)
    ensures TopicsHeard(l) ==> TopicsHeard(r)
    ensures r.journal == l.journal && r.quests == l.quests
    ensures r.topics.items == l.topics.items[topicId := AppendToTopic(TopicOr(l.topics, topicId), TopicEntry(data, topicId, infoId))]
  {
    var topics := EnsureTopic(l.topics, topicId);
    l.(topics := Assign(topics, topicId, AppendToTopic(topics.items[topicId], TopicEntry(data, topicId, infoId))))
  }

  /** Journal::readRecord: files one record of the saved-game stream. */
  function Read(l: Ledger, rec: SavedRecord): (r: Ledger)
    ensures rec.Unrelated? ==> r == l
    ensures rec.Jour? && rec.entry.kind.TypeUnknown? ==> r == l
    ensures rec.Jour? && rec.entry.kind == TypeJournal ==>
      r == l.(journal := l.journal + [StampedOf(rec.entry)])
    ensures rec.Jour? && rec.entry.kind == TypeQuest ==>
      && r.journal == l.journal && r.topics == l.topics
      && r.quests.items == l.quests.items[rec.entry.topic := AppendToQuest(QuestOr(l.quests, rec.entry.topic), EntryOf(rec.entry))]
    ensures rec.Jour? && rec.entry.kind == TypeTopic ==>
      && r.journal == l.journal && r.quests == l.quests
      && r.topics.items == l.topics.items[rec.entry.topic := AppendToTopic(TopicOr(l.topics, rec.entry.topic), EntryOf(rec.entry))]
    ensures rec.Ques? && rec.quest.topic in l.quests.items ==> r == l
    ensures rec.Ques? && rec.quest.topic !in l.quests.items ==>
      && r.journal == l.journal && r.topics == l.topics
      && r.quests.items == l.quests.items[rec.quest.topic := QuestFromState(rec.quest)]
  {
    match rec
    case Jour(entry) =>
      (match entry.kind
       case TypeQuest =>
         var quests := EnsureQuest(l.quests, entry.topic);
         l.(quests := Assign(quests, entry.topic, AppendToQuest(quests.items[entry.topic], EntryOf(entry))))
       case TypeJournal =>
         l.(journal := l.journal + [StampedOf(entry)])
       case TypeTopic =>
         var topics := EnsureTopic(l.topics, entry.topic);
         l.(topics := Assign(topics, entry.topic, AppendToTopic(topics.items[entry.topic], EntryOf(entry))))
       case TypeUnknown(_) => l)
    case Ques(state) =>
      l.(quests := Insert(l.quests, state.topic, QuestFromState(state)))
    case Unrelated(_) => l
  }

  /** Reading a stream of records, one after the other. */
  function Load(l: Ledger, recs: seq<SavedRecord>): Ledger
    decreases |recs|
  {
    if recs == [] then l else Load(Read(l, recs[0]), recs[1..])
  }

  /** The REC_JOUR records `write` emits for a log, in log order. */
  function EntryRecords(kind: EntryType, owner: string, entries: seq<Entry>): (rs: seq<SavedRecord>)
    ensures |rs| == |entries|
    ensures forall i | 0 <= i < |entries| :: rs[i] == EntryRecord(kind, owner, entries[i])
  {
    if entries == [] then []
    else EntryRecords(kind, owner, entries[..|entries| - 1]) + [EntryRecord(kind, owner, entries[|entries| - 1])]
  }

  /** The Type_Journal record of one journal line. */
  function LineRecord(e: StampedEntry): SavedRecord
  {
    Jour(JournalRecord(TypeJournal, e.topic, e.infoId, e.text))
  }

  /** The records `write` emits for the journal, in chronological order. */
  function JournalRecords(journal: seq<StampedEntry>): (rs: seq<SavedRecord>)
    ensures |rs| == |journal|
    ensures forall i | 0 <= i < |journal| :: rs[i] == LineRecord(journal[i])
  {
    if journal == [] then []
    else JournalRecords(journal[..|journal| - 1]) + [LineRecord(journal[|journal| - 1])]
  }

  /** The records of one quest: its state, then its log as Type_Quest records. */
  function QuestBlock(q: Quest): seq<SavedRecord>
  {
    [Ques(QuestState(q.id, q.index))] + EntryRecords(TypeQuest, q.id, q.entries)
  }

  /** The records of one topic: its log as Type_Topic records. */
  function TopicBlock(t: Topic): seq<SavedRecord>
  {
    EntryRecords(TypeTopic, t.id, t.entries)
  }

  /** The blocks of the quests listed in `keys`, in that order. */
  function QuestRecords(keys: seq<string>, items: map<string, Quest>): seq<SavedRecord>
    requires forall k | k in keys :: k in items
  {
    if keys == [] then []
    else QuestRecords(keys[..|keys| - 1], items) + QuestBlock(items[keys[|keys| - 1]])
  }

  /** The blocks of the topics listed in `keys`, in that order. */
  function TopicRecords(keys: seq<string>, items: map<string, Topic>): seq<SavedRecord>
    requires forall k | k in keys :: k in items
  {
    if keys == [] then []
    else TopicRecords(keys[..|keys| - 1], items) + TopicBlock(items[keys[|keys| - 1]])
  }

  /** Journal::write: every quest, then the journal, then every topic. */
  function Save(l: Ledger): seq<SavedRecord>
    requires Wellformed(l)
  {
    QuestRecords(l.quests.keys, l.quests.items)
      + JournalRecords(l.journal)
      + TopicRecords(l.topics.keys, l.topics.items)
  }

  /** The total length of the logs of the quests listed in `keys`. */
  function QuestLogTotal(keys: seq<string>, items: map<string, Quest>): nat
    requires forall k | k in keys :: k in items
  {
    if keys == [] then 0
    else QuestLogTotal(keys[..|keys| - 1], items) + |items[keys[|keys| - 1]].entries|
  }

  /** The total length of the logs of the topics listed in `keys`. */
  function TopicLogTotal(keys: seq<string>, items: map<string, Topic>): nat
    requires forall k | k in keys :: k in items
  {
    if keys == [] then 0
    else TopicLogTotal(keys[..|keys| - 1], items) + |items[keys[|keys| - 1]].entries|
  }

  /** countSavedGameRecords: one per quest, plus one per logged entry of the
      quests, the journal and the topics. */
  function RecordCount(l: Ledger): int
    requires Wellformed(l)
  {
    |l.quests.items| + QuestLogTotal(l.quests.keys, l.quests.items)
      + |l.journal| + TopicLogTotal(l.topics.keys, l.topics.items)
  }
}
