/** MWDialogue::Journal: the player's journal, kept in three containers that
    its methods update in place. Every method is proved against a function of
    JournalModel applied to the journal's contents: GetQuest and GetTopic
    against EnsureQuest and EnsureTopic, Clear against Cleared, AddEntry,
    SetJournalIndex and AddTopic against their namesakes, GetJournalIndex
    against JournalIndex, CountSavedGameRecords against RecordCount, the Write
    methods against Save and its parts, and ReadRecord against Read. */
module JournalImpl {
  import opened OrderedMaps
  import opened JournalEntries
  import M = JournalModel
  import P = JournalProperties

  class Journal {
    /** mJournal: every quest response recorded, in the order recorded. */
    var journal: seq<StampedEntry>
    /** mQuests: the quests by id, iterated in id order. */
    var quests: OrderedMap<M.Quest>
    /** mTopics: the dialogue topics heard, by id, iterated in id order. */
    var topics: OrderedMap<M.Topic>

    ghost function Contents(): M.Ledger
      reads this
    {
      M.Ledger(journal, quests, topics)
    }

    /** The maps iterate in key order and file every value under its own id,
        and no topic is without a logged response. */
    ghost predicate Valid()
      reads this
    {
      M.Wellformed(Contents()) && M.TopicsHeard(Contents())
    }

    constructor()
      ensures Valid()
      ensures Contents() == M.Cleared()
    {
      journal := [];
      quests := OrderedMaps.Empty();
      topics := OrderedMaps.Empty();
    }

    /** The quest filed under `id`, created at stage 0 with an empty log when
        there is none. */
    method GetQuest(id: string) returns (q: M.Quest)
      modifies this
      ensures quests == M.EnsureQuest(old(quests), id)
      ensures journal == old(journal) && topics == old(topics)
      ensures q == quests.items[id] && q == M.QuestOr(old(quests), id)
    {
      if id !in quests.items {
        quests := Insert(quests, id, M.NewQuest(id));
      }
      q := quests.items[id];
    }

    /** The topic filed under `id`, created with an empty log when there is
        none. */
    method GetTopic(id: string) returns (t: M.Topic)
      modifies this
      ensures topics == M.EnsureTopic(old(topics), id)
      ensures journal == old(journal) && quests == old(quests)
      ensures t == topics.items[id] && t == M.TopicOr(old(topics), id)
    {
      if id !in topics.items {
        topics := Insert(topics, id, M.NewTopic(id));
      }
      t := topics.items[id];
    }

    method Clear()
      modifies this
      ensures Valid()
      ensures Contents() == M.Cleared()
    {
      journal := [];
      quests := OrderedMaps.Empty();
      topics := OrderedMaps.Empty();
    }

    /** Records that quest `id` reached stage `index`, unless the journal
        already holds the response that stage stands for. */
    method AddEntry(data: GameData, id: string, index: int)
      requires Valid()
      modifies this
      ensures Valid()
      ensures Contents() == M.AddEntry(old(Contents()), data, id, index)
    {
      var infoId := IdFromIndex(data, id, index);
      var i := 0;
      while i < |journal|
        invariant 0 <= i <= |journal|
        invariant forall j | 0 <= j < i :: !(journal[j].topic == id && journal[j].infoId == infoId)
      {
        if journal[i].topic == id && journal[i].infoId == infoId {
          return;
        }
        i := i + 1;
      }
      var entry := MakeFromQuest(data, id, index);
      journal := journal + [entry];
      var quest := GetQuest(id);
      quests := Assign(quests, id, M.AppendToQuest(quest, Base(entry)));
    }

    method SetJournalIndex(id: string, index: int)
      requires Valid()
      modifies this
      ensures Valid()
      ensures Contents() == M.SetJournalIndex(old(Contents()), id, index)
    {
      var quest := GetQuest(id);
      quests := Assign(quests, id, quest.(index := index));
    }

    /** Logs response `infoId` under topic `topicId`, heard before or not. */
    method AddTopic(data: GameData, topicId: string, infoId: string)
      requires Valid()
      modifies this
      ensures Valid()
      ensures Contents() == M.AddTopic(old(Contents()), data, topicId, infoId)
    {
      var topic := GetTopic(topicId);
      topics := Assign(topics, topicId, M.AppendToTopic(topic, TopicEntry(data, topicId, infoId)));
    }

    /** The stage of quest `id`; 0 for a quest the journal does not hold. */
    function GetJournalIndex(id: string): (r: int)
      reads this
      ensures id !in quests.items ==> r == 0
      ensures id in quests.items ==> r == quests.items[id].index
      ensures r == M.JournalIndex(Contents(), id)
    {
      if id in quests.items then quests.items[id].index else 0
    }

    /** The number of records `Write` emits. */
    method CountSavedGameRecords() returns (count: int)
      requires Valid()
      ensures count == M.RecordCount(Contents())
      ensures count == |M.Save(Contents())|
    {
      SizeIsKeyCount(quests);
      count := |quests.keys|;
      var i := 0;
      while i < |quests.keys|
        invariant 0 <= i <= |quests.keys|
        invariant count == |quests.keys| + M.QuestLogTotal(quests.keys[..i], quests.items)
      {
        assert quests.keys[..i + 1][..i] == quests.keys[..i];
        count := count + |quests.items[quests.keys[i]].entries|;
        i := i + 1;
      }
      assert quests.keys[..i] == quests.keys;
      count := count + |journal|;
      i := 0;
      var topicTotal := 0;
      while i < |topics.keys|
        invariant 0 <= i <= |topics.keys|
        invariant topicTotal == M.TopicLogTotal(topics.keys[..i], topics.items)
      {
        assert topics.keys[..i + 1][..i] == topics.keys[..i];
        topicTotal := topicTotal + |topics.items[topics.keys[i]].entries|;
        i := i + 1;
      }
      assert topics.keys[..i] == topics.keys;
      count := count + topicTotal;
      P.SaveLayout(Contents());
    }

    /** The records of the saved game: each quest's state followed by its log,
        quest by quest in id order, then the journal lines in the order they
        were recorded, then each topic's log, topic by topic in id order. */
    method Write() returns (records: seq<SavedRecord>)
      requires Valid()
      ensures records == M.Save(Contents())
    {
      var questPart := WriteQuests();
      var linePart := WriteJournal();
      var topicPart := WriteTopics();
      records := questPart + linePart + topicPart;
    }

    /** The first loop of `Write`: for each quest, its state, then its log. */
    method WriteQuests() returns (records: seq<SavedRecord>)
      requires Valid()
      ensures records == M.QuestRecords(quests.keys, quests.items)
    {
      records := [];
      var i := 0;
      while i < |quests.keys|
        invariant 0 <= i <= |quests.keys|
        invariant records == M.QuestRecords(quests.keys[..i], quests.items)
      {
        var quest := quests.items[quests.keys[i]];
        var log := WriteLog(TypeQuest, quest.id, quest.entries);
        assert quests.keys[..i + 1][..i] == quests.keys[..i];
        records := records + ([Ques(QuestState(quest.id, quest.index))] + log);
        i := i + 1;
      }
      assert quests.keys[..i] == quests.keys;
    }

    /** The second loop of `Write`: one Type_Journal record per journal line. */
    method WriteJournal() returns (records: seq<SavedRecord>)
      ensures records == M.JournalRecords(journal)
    {
      records := [];
      var i := 0;
      while i < |journal|
        invariant 0 <= i <= |journal|
        invariant records == M.JournalRecords(journal[..i])
      {
        assert journal[..i + 1][..i] == journal[..i];
        records := records + [M.LineRecord(journal[i])];
        i := i + 1;
      }
      assert journal[..i] == journal;
    }

    /** The third loop of `Write`: for each topic, its log. */
    method WriteTopics() returns (records: seq<SavedRecord>)
      requires Valid()
      ensures records == M.TopicRecords(topics.keys, topics.items)
    {
      records := [];
      var i := 0;
      while i < |topics.keys|
        invariant 0 <= i <= |topics.keys|
        invariant records == M.TopicRecords(topics.keys[..i], topics.items)
      {
        var topic := topics.items[topics.keys[i]];
        var log := WriteLog(TypeTopic, topic.id, topic.entries);
        assert topics.keys[..i + 1][..i] == topics.keys[..i];
        records := records + log;
        i := i + 1;
      }
      assert topics.keys[..i] == topics.keys;
    }

    /** The inner loops of `Write`: one REC_JOUR record of type `kind` per
        entry of a quest's or a topic's log, naming `owner` as its topic. */
    static method WriteLog(kind: EntryType, owner: string, entries: seq<Entry>) returns (records: seq<SavedRecord>)
      ensures records == M.EntryRecords(kind, owner, entries)
    {
      records := [];
      var j := 0;
      while j < |entries|
        invariant 0 <= j <= |entries|
        invariant records == M.EntryRecords(kind, owner, entries[..j])
      {
        assert entries[..j + 1][..j] == entries[..j];
        records := records + [EntryRecord(kind, owner, entries[j])];
        j := j + 1;
      }
      assert entries[..j] == entries;
    }

    /** Files one record of a saved game: a REC_JOUR record by its entry type,
        a REC_QUES record only when its quest is not yet held; any other
        record is not the journal's and is ignored. */
    method ReadRecord(rec: SavedRecord)
      requires Valid()
      modifies this
      ensures Valid()
      ensures Contents() == M.Read(old(Contents()), rec)
    {
      P.ReadKeepsInvariants(Contents(), rec);
      match rec
      case Jour(entry) =>
        match entry.kind {
          case TypeQuest =>
            var quest := GetQuest(entry.topic);
            quests := Assign(quests, entry.topic, M.AppendToQuest(quest, EntryOf(entry)));
          case TypeJournal =>
            journal := journal + [StampedOf(entry)];
          case TypeTopic =>
            var topic := GetTopic(entry.topic);
            topics := Assign(topics, entry.topic, M.AppendToTopic(topic, EntryOf(entry)));
          case TypeUnknown(_) =>
        }
      case Ques(state) =>
        quests := Insert(quests, state.topic, M.QuestFromState(state));
      case Unrelated(_) =>
    }
  }
}
