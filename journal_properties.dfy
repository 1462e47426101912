/** What the journal's operations promise, proved about the specification in
    JournalModel: re-recording a stage changes nothing, the record count is the
    number of records written, the order of the written records, and that
    reading back what was written restores the journal. */
module JournalProperties {
  import opened OrderedMaps
  import opened JournalEntries
  import opened JournalModel

  /** addEntry is idempotent: the second call finds the line the first one
      wrote (or the line that made the first one a no-op). */
  lemma AddEntryIdempotent(l: Ledger, data: GameData, id: string, index: int)
    ensures AddEntry(AddEntry(l, data, id, index), data, id, index) == AddEntry(l, data, id, index)
  {
    var once := AddEntry(l, data, id, index);
    var e := MakeFromQuest(data, id, index);
    if !Heard(l.journal, id, e.infoId) {
      assert once.journal[|l.journal|] == e;
    }
  }

  /** Reaching stages 10, 20 and 10 again of one quest logs two lines, once
      in the journal and once in the quest's log, provided the two stages are
      different responses. */
  lemma RepeatedStageLoggedOnce(data: GameData)
    requires IdFromIndex(data, "MQ1", 10) != IdFromIndex(data, "MQ1", 20)
    ensures var l := AddEntry(AddEntry(AddEntry(Cleared(), data, "MQ1", 10), data, "MQ1", 20), data, "MQ1", 10);
      && l.journal == [MakeFromQuest(data, "MQ1", 10), MakeFromQuest(data, "MQ1", 20)]
      && l.quests.items.Keys == {"MQ1"}
      && l.quests.items["MQ1"].entries == [Base(MakeFromQuest(data, "MQ1", 10)), Base(MakeFromQuest(data, "MQ1", 20))]
  {
    var l1 := AddEntry(Cleared(), data, "MQ1", 10);
    var l2 := AddEntry(l1, data, "MQ1", 20);
    assert !Heard(l1.journal, "MQ1", IdFromIndex(data, "MQ1", 20));
    assert l2.journal[0].topic == "MQ1" && l2.journal[0].infoId == IdFromIndex(data, "MQ1", 10);
  }

  /** Hearing the same topic response twice logs it twice. */
  lemma RepeatedTopicLoggedTwice(data: GameData)
    ensures var l := AddTopic(AddTopic(Cleared(), data, "Vivec", "INFO_001"), data, "Vivec", "INFO_001");
      && l.topics.items.Keys == {"Vivec"}
      && l.topics.items["Vivec"].entries == [TopicEntry(data, "Vivec", "INFO_001"), TopicEntry(data, "Vivec", "INFO_001")]
  {
  }

  /** The stage of a quest is what setJournalIndex last set it to, 0 before
      that; setting one quest's stage leaves every other quest's alone. */
  lemma JournalIndexOfSet(l: Ledger, id: string, index: int, other: string)
    ensures JournalIndex(Cleared(), other) == 0
    ensures JournalIndex(SetJournalIndex(l, id, index), other)
         == if other == id then index else JournalIndex(l, other)
  {
  }

  /** addEntry logs a stage without changing any quest's stage; the stage is
      only ever set by setJournalIndex (or restored from a REC_QUES record). */
  lemma AddEntryKeepsStages(l: Ledger, data: GameData, id: string, index: int, other: string)
    ensures JournalIndex(AddEntry(l, data, id, index), other) == JournalIndex(l, other)
  {
  }

  lemma {:induction false} QuestLogAppend(journal: seq<StampedEntry>, e: StampedEntry, id: string)
    ensures QuestLog(journal + [e], id) == QuestLog(journal, id) + (if e.topic == id then [Base(e)] else [])
  {
    assert (journal + [e])[..|journal|] == journal;
  }

  /** A quest without journal lines has an empty log. */
  lemma {:induction false} QuestLogOfUnheard(journal: seq<StampedEntry>, id: string)
    requires forall j | 0 <= j < |journal| :: journal[j].topic != id
    ensures QuestLog(journal, id) == []
  {
    if journal != [] {
      QuestLogOfUnheard(journal[..|journal| - 1], id);
    }
  }

  /** Every entry of a quest's log comes from one of its journal lines. */
  lemma {:induction false} QuestLogFromLines(journal: seq<StampedEntry>, id: string, x: Entry)
    requires x in QuestLog(journal, id)
    ensures exists j | 0 <= j < |journal| :: journal[j].topic == id && Base(journal[j]) == x
  {
    var init := journal[..|journal| - 1];
    var last := journal[|journal| - 1];
    if x in QuestLog(init, id) {
      QuestLogFromLines(init, id, x);
      var j :| 0 <= j < |init| && init[j].topic == id && Base(init[j]) == x;
      assert journal[j] == init[j];
    } else {
      assert last.topic == id && Base(last) == x;
    }
  }

  /** No response occurs twice in a log. */
  ghost predicate LogDistinct(entries: seq<Entry>)
  {
    forall i, j | 0 <= i < j < |entries| :: entries[i].infoId != entries[j].infoId
  }

  /** A journal without repeated lines gives each quest a log without repeated
      responses. */
  lemma {:induction false} QuestLogDistinct(journal: seq<StampedEntry>, id: string)
    requires JournalDistinct(journal)
    ensures LogDistinct(QuestLog(journal, id))
  {
    if journal != [] {
      var init := journal[..|journal| - 1];
      var last := journal[|journal| - 1];
      assert JournalDistinct(init) by {
        forall i, j | 0 <= i < j < |init| ensures init[i].topic != init[j].topic || init[i].infoId != init[j].infoId {
          assert init[i] == journal[i] && init[j] == journal[j];
        }
      }
      QuestLogDistinct(init, id);
      var log := QuestLog(init, id);
      if last.topic == id {
        forall x | x in log ensures x.infoId != last.infoId {
          QuestLogFromLines(init, id, x);
          var j :| 0 <= j < |init| && init[j].topic == id && Base(init[j]) == x;
          assert journal[j] == init[j];
        }
        var full := log + [Base(last)];
        forall i, j | 0 <= i < j < |full| ensures full[i].infoId != full[j].infoId {
          if j == |log| {
            assert full[i] in log;
          } else {
            assert full[i] == log[i] && full[j] == log[j];
          }
        }
      } else {
        assert QuestLog(journal, id) == log;
      }
    }
  }

  /** `clear` leaves the quest logs mirroring the journal. */
  lemma ClearedMirrors()
    ensures LogsMirrorJournal(Cleared())
  {
  }

  /** `addEntry` writes the journal line and the quest's entry together, so
      the quest logs keep mirroring the journal. */
  lemma AddEntryKeepsMirror(l: Ledger, data: GameData, id: string, index: int)
    requires LogsMirrorJournal(l)
    ensures LogsMirrorJournal(AddEntry(l, data, id, index))
  {
    var e := MakeFromQuest(data, id, index);
    if !Heard(l.journal, id, e.infoId) {
      var r := AddEntry(l, data, id, index);
      if id !in l.quests.items {
        QuestLogOfUnheard(l.journal, id);
      }
      forall k | k in r.quests.items ensures r.quests.items[k].entries == QuestLog(r.journal, k) {
        QuestLogAppend(l.journal, e, k);
      }
    }
  }

  /** Setting a stage keeps the quest logs mirroring the journal; a quest it
      creates has no journal lines and an empty log. */
  lemma SetJournalIndexKeepsMirror(l: Ledger, id: string, index: int)
    requires LogsMirrorJournal(l)
    ensures LogsMirrorJournal(SetJournalIndex(l, id, index))
  {
    if id !in l.quests.items {
      QuestLogOfUnheard(l.journal, id);
    }
  }

  lemma AddTopicKeepsMirror(l: Ledger, data: GameData, topicId: string, infoId: string)
    requires LogsMirrorJournal(l)
    ensures LogsMirrorJournal(AddTopic(l, data, topicId, infoId))
  {
  }

  /** In a state the journal's own mutators reach, no quest's log holds the
      same response twice, although `addEntry` only scans the journal. */
  lemma QuestLogsDistinct(l: Ledger)
    requires LogsMirrorJournal(l) && JournalDistinct(l.journal)
    ensures forall k | k in l.quests.items :: LogDistinct(l.quests.items[k].entries)
  {
    forall k | k in l.quests.items ensures LogDistinct(l.quests.items[k].entries) {
      QuestLogDistinct(l.journal, k);
    }
  }

  /** `readRecord` does not check the mirror: a Type_Quest record with no
      journal line gives a quest an entry the journal does not have. */
  lemma ReadCanBreakMirror(id: string, info: string, text: string)
    ensures !LogsMirrorJournal(Read(Cleared(), Jour(JournalRecord(TypeQuest, id, info, text))))
  {
    var r := Read(Cleared(), Jour(JournalRecord(TypeQuest, id, info, text)));
    assert r.quests.items[id].entries == [Entry(info, text)];
  }

  /** The last key of a repetition-free sequence does not occur before it. */
  lemma DistinctLastFresh(keys: seq<string>)
    requires Distinct(keys) && keys != []
    ensures keys[|keys| - 1] !in keys[..|keys| - 1]
    ensures Distinct(keys[..|keys| - 1])
  {
  }

  /** The number of REC_QUES records in a stream. */
  function StateCount(rs: seq<SavedRecord>): nat
  {
    if rs == [] then 0
    else StateCount(rs[..|rs| - 1]) + (if rs[|rs| - 1].Ques? then 1 else 0)
  }

  lemma {:induction false} StateCountAppend(a: seq<SavedRecord>, b: seq<SavedRecord>)
    ensures StateCount(a + b) == StateCount(a) + StateCount(b)
    decreases |b|
  {
    if b == [] {
      assert a + b == a;
    } else {
      var init := b[..|b| - 1];
      assert (a + b)[..|a + b| - 1] == a + init;
      StateCountAppend(a, init);
    }
  }

  lemma {:induction false} EntryRecordsHoldNoState(kind: EntryType, owner: string, entries: seq<Entry>)
    ensures StateCount(EntryRecords(kind, owner, entries)) == 0
  {
    if entries != [] {
      var init := entries[..|entries| - 1];
      EntryRecordsHoldNoState(kind, owner, init);
      StateCountAppend(EntryRecords(kind, owner, init), [EntryRecord(kind, owner, entries[|entries| - 1])]);
      assert StateCount([EntryRecord(kind, owner, entries[|entries| - 1])]) == 0;
    }
  }

  /** The quest part of a saved game holds exactly one REC_QUES record per
      quest and one Type_Quest record per logged entry, and nothing else. */
  lemma {:induction false} QuestRecordsShape(keys: seq<string>, items: map<string, Quest>)
    requires forall k | k in keys :: k in items
    ensures |QuestRecords(keys, items)| == |keys| + QuestLogTotal(keys, items)
    ensures StateCount(QuestRecords(keys, items)) == |keys|
    ensures forall i | 0 <= i < |QuestRecords(keys, items)| ::
      QuestRecords(keys, items)[i].Ques? || (QuestRecords(keys, items)[i].Jour? && QuestRecords(keys, items)[i].entry.kind == TypeQuest)
  {
    if keys != [] {
      var init := keys[..|keys| - 1];
      var q := items[keys[|keys| - 1]];
      var head := Ques(QuestState(q.id, q.index));
      QuestRecordsShape(init, items);
      EntryRecordsHoldNoState(TypeQuest, q.id, q.entries);
      StateCountAppend([head], EntryRecords(TypeQuest, q.id, q.entries));
      StateCountAppend(QuestRecords(init, items), QuestBlock(q));
      assert StateCount([head]) == 1 by {
        assert [head][..0] == [];
      }
    }
  }

  lemma {:induction false} TopicRecordsShape(keys: seq<string>, items: map<string, Topic>)
    requires forall k | k in keys :: k in items
    ensures |TopicRecords(keys, items)| == TopicLogTotal(keys, items)
    ensures forall i | 0 <= i < |TopicRecords(keys, items)| ::
      TopicRecords(keys, items)[i].Jour? && TopicRecords(keys, items)[i].entry.kind == TypeTopic
  {
    if keys != [] {
      TopicRecordsShape(keys[..|keys| - 1], items);
    }
  }

  /** countSavedGameRecords is the number of records write emits, and write
      emits the quest records first, then the journal lines in order, then
      the topic records. */
  lemma SaveLayout(l: Ledger)
    requires Wellformed(l)
    ensures var rs := Save(l);
      var nq := |l.quests.items| + QuestLogTotal(l.quests.keys, l.quests.items);
      var nj := nq + |l.journal|;
      && |rs| == RecordCount(l)
      && (forall i | 0 <= i < nq :: rs[i].Ques? || (rs[i].Jour? && rs[i].entry.kind == TypeQuest))
      && (forall i | nq <= i < nj :: rs[i] == LineRecord(l.journal[i - nq]))
      && (forall i | nj <= i < |rs| :: rs[i].Jour? && rs[i].entry.kind == TypeTopic)
  {
    SizeIsKeyCount(l.quests);
    QuestRecordsShape(l.quests.keys, l.quests.items);
    TopicRecordsShape(l.topics.keys, l.topics.items);
  }

  /** After clear nothing is counted and nothing is written. */
  lemma ClearedSavesNothing()
    ensures RecordCount(Cleared()) == 0 && Save(Cleared()) == []
  {
  }

  /** readRecord keeps the maps in key order with every value under its own
      id, and never leaves a topic without a logged response. */
  lemma ReadKeepsInvariants(l: Ledger, rec: SavedRecord)
    requires Wellformed(l)
    ensures Wellformed(Read(l, rec))
    ensures TopicsHeard(l) ==> TopicsHeard(Read(l, rec))
  {
  }

  lemma {:induction false} LoadKeepsInvariants(l: Ledger, recs: seq<SavedRecord>)
    requires Wellformed(l)
    ensures Wellformed(Load(l, recs))
    ensures TopicsHeard(l) ==> TopicsHeard(Load(l, recs))
    decreases |recs|
  {
    if recs != [] {
      ReadKeepsInvariants(l, recs[0]);
      LoadKeepsInvariants(Read(l, recs[0]), recs[1..]);
    }
  }

  lemma {:induction false} LoadAppend(l: Ledger, a: seq<SavedRecord>, b: seq<SavedRecord>)
    ensures Load(l, a + b) == Load(Load(l, a), b)
    decreases |a|
  {
    if a == [] {
      assert a + b == b;
    } else {
      assert (a + b)[0] == a[0] && (a + b)[1..] == a[1..] + b;
      LoadAppend(Read(l, a[0]), a[1..], b);
    }
  }

  lemma MapsEqual<V>(a: map<string, V>, b: map<string, V>)
    requires a.Keys == b.Keys
    requires forall k | k in a :: a[k] == b[k]
    ensures a == b
  {
  }

  lemma LoadOne(l: Ledger, rec: SavedRecord)
    ensures Load(l, [rec]) == Read(l, rec)
  {
    assert [rec][1..] == [];
  }

  /** `acc` with the value of every key of `keys` filled in from `items`, in
      the order of `keys`. */
  ghost function Filled<V>(acc: map<string, V>, keys: seq<string>, items: map<string, V>): map<string, V>
    requires forall k | k in keys :: k in items
  {
    if keys == [] then acc
    else Filled(acc, keys[..|keys| - 1], items)[keys[|keys| - 1] := items[keys[|keys| - 1]]]
  }

  lemma {:induction false} FilledKeys<V>(acc: map<string, V>, keys: seq<string>, items: map<string, V>)
    requires forall k | k in keys :: k in items
    ensures forall k :: k in Filled(acc, keys, items) <==> k in acc || k in keys
    ensures forall k | k in keys :: Filled(acc, keys, items)[k] == items[k]
  {
    if keys != [] {
      FilledKeys(acc, keys[..|keys| - 1], items);
      assert keys == keys[..|keys| - 1] + [keys[|keys| - 1]];
    }
  }

  /** Filling in every key of a map from nothing gives back that map. */
  lemma FilledAll<V>(keys: seq<string>, items: map<string, V>)
    requires forall k :: k in keys <==> k in items
    ensures Filled(map[], keys, items) == items
  {
    FilledKeys(map[], keys, items);
    MapsEqual(Filled(map[], keys, items), items);
  }

  /** Type_Quest records of one quest's log extend that quest's log. */
  lemma {:induction false} LoadQuestEntries(l: Ledger, id: string, es: seq<Entry>)
    requires id in l.quests.items
    ensures var r := Load(l, EntryRecords(TypeQuest, id, es));
      && r.journal == l.journal && r.topics == l.topics
      && r.quests.items == l.quests.items[id := l.quests.items[id].(entries := l.quests.items[id].entries + es)]
  {
    var q := l.quests.items[id];
    if es == [] {
      assert q.(entries := q.entries + es) == q;
      assert l.quests.items[id := q] == l.quests.items;
    } else {
      var init, x := es[..|es| - 1], es[|es| - 1];
      assert es == init + [x];
      var rec := EntryRecord(TypeQuest, id, x);
      LoadQuestEntries(l, id, init);
      LoadAppend(l, EntryRecords(TypeQuest, id, init), [rec]);
      var m := Load(l, EntryRecords(TypeQuest, id, init));
      LoadOne(m, rec);
      assert QuestOr(m.quests, id) == q.(entries := q.entries + init);
      assert (q.entries + init) + [x] == q.entries + es;
    }
  }

  /** The records of a quest the journal does not hold yet restore that quest. */
  lemma LoadQuestBlock(l: Ledger, q: Quest)
    requires q.id !in l.quests.items
    ensures var r := Load(l, QuestBlock(q));
      && r.journal == l.journal && r.topics == l.topics
      && r.quests.items == l.quests.items[q.id := q]
  {
    var head := Ques(QuestState(q.id, q.index));
    var es := EntryRecords(TypeQuest, q.id, q.entries);
    assert QuestBlock(q) == [head] + es;
    LoadAppend(l, [head], es);
    LoadOne(l, head);
    var l1 := Read(l, head);
    var empty := Quest(q.id, q.index, []);
    assert l1.quests.items == l.quests.items[q.id := empty];
    LoadQuestEntries(l1, q.id, q.entries);
    assert empty.(entries := empty.entries + q.entries) == q;
  }

  lemma {:induction false} LoadQuestRecords(l: Ledger, keys: seq<string>, items: map<string, Quest>)
    requires Distinct(keys)
    requires forall k | k in keys :: k in items && items[k].id == k && k !in l.quests.items
    ensures var r := Load(l, QuestRecords(keys, items));
      && r.journal == l.journal && r.topics == l.topics
      && r.quests.items == Filled(l.quests.items, keys, items)
  {
    if keys != [] {
      var init, last := keys[..|keys| - 1], keys[|keys| - 1];
      DistinctLastFresh(keys);
      LoadQuestRecords(l, init, items);
      LoadAppend(l, QuestRecords(init, items), QuestBlock(items[last]));
      var l1 := Load(l, QuestRecords(init, items));
      FilledKeys(l.quests.items, init, items);
      LoadQuestBlock(l1, items[last]);
    }
  }

  lemma {:induction false} LoadJournalRecords(l: Ledger, js: seq<StampedEntry>)
    ensures Load(l, JournalRecords(js)) == l.(journal := l.journal + js)
  {
    if js != [] {
      var init, x := js[..|js| - 1], js[|js| - 1];
      LoadJournalRecords(l, init);
      LoadAppend(l, JournalRecords(init), [LineRecord(x)]);
      assert js == init + [x];
    }
  }

  /** Type_Topic records of a non-empty log create the topic if need be and
      extend its log. */
  lemma {:induction false} LoadTopicEntries(l: Ledger, id: string, es: seq<Entry>)
    requires es != []
    ensures var r := Load(l, EntryRecords(TypeTopic, id, es));
      && r.journal == l.journal && r.quests == l.quests
      && r.topics.items == l.topics.items[id := TopicOr(l.topics, id).(entries := TopicOr(l.topics, id).entries + es)]
  {
    var t := TopicOr(l.topics, id);
    var init, x := es[..|es| - 1], es[|es| - 1];
    assert es == init + [x];
    var rec := EntryRecord(TypeTopic, id, x);
    LoadAppend(l, EntryRecords(TypeTopic, id, init), [rec]);
    var m := Load(l, EntryRecords(TypeTopic, id, init));
    LoadOne(m, rec);
    if init == [] {
      assert m == l;
      assert t.entries + es == t.entries + [x];
    } else {
      LoadTopicEntries(l, id, init);
      assert TopicOr(m.topics, id) == t.(entries := t.entries + init);
      assert (t.entries + init) + [x] == t.entries + es;
    }
  }

  lemma {:induction false} LoadTopicRecords(l: Ledger, keys: seq<string>, items: map<string, Topic>)
    requires Distinct(keys)
    requires forall k | k in keys :: k in items && items[k].id == k && items[k].entries != [] && k !in l.topics.items
    ensures var r := Load(l, TopicRecords(keys, items));
      && r.journal == l.journal && r.quests == l.quests
      && r.topics.items == Filled(l.topics.items, keys, items)
  {
    if keys != [] {
      var init, last := keys[..|keys| - 1], keys[|keys| - 1];
      DistinctLastFresh(keys);
      LoadTopicRecords(l, init, items);
      LoadAppend(l, TopicRecords(init, items), TopicBlock(items[last]));
      var l1 := Load(l, TopicRecords(init, items));
      FilledKeys(l.topics.items, init, items);
      LoadTopicEntries(l1, last, items[last].entries);
      assert TopicOr(l1.topics, last).entries + items[last].entries == items[last].entries;
    }
  }

  /** Reading what write emitted into a cleared journal restores the journal:
      the same quests with the same stages and logs, the same journal lines in
      the same order, the same topics with the same logs. */
  lemma SaveLoadRoundTrip(l: Ledger)
    requires Wellformed(l) && TopicsHeard(l)
    ensures Load(Cleared(), Save(l)) == l
  {
    SortedDistinct(l.quests.keys);
    SortedDistinct(l.topics.keys);
    var qs := QuestRecords(l.quests.keys, l.quests.items);
    var js := JournalRecords(l.journal);
    var ts := TopicRecords(l.topics.keys, l.topics.items);
    LoadAppend(Cleared(), qs + js, ts);
    LoadAppend(Cleared(), qs, js);
    LoadQuestRecords(Cleared(), l.quests.keys, l.quests.items);
    var l1 := Load(Cleared(), qs);
    LoadJournalRecords(l1, l.journal);
    var l2 := Load(l1, js);
    LoadTopicRecords(l2, l.topics.keys, l.topics.items);
    var l3 := Load(l2, ts);
    FilledAll(l.quests.keys, l.quests.items);
    FilledAll(l.topics.keys, l.topics.items);
    LoadKeepsInvariants(Cleared(), Save(l));
    SameItemsSameMap(l3.quests, l.quests);
    SameItemsSameMap(l3.topics, l.topics);
  }

  /** A REC_QUES record read after a Type_Quest record of the same quest is
      dropped: the Type_Quest record already created the quest at stage 0,
      and map::insert does not overwrite. */
  lemma QuestStateAfterItsEntriesIsDropped(id: string, info: string, text: string, stage: int)
    ensures var l := Load(Cleared(), [Jour(JournalRecord(TypeQuest, id, info, text)), Ques(QuestState(id, stage))]);
      && JournalIndex(l, id) == 0
      && id in l.quests.items && l.quests.items[id].entries == [Entry(info, text)]
  {
    var recs := [Jour(JournalRecord(TypeQuest, id, info, text)), Ques(QuestState(id, stage))];
    LoadAppend(Cleared(), [recs[0]], [recs[1]]);
    assert recs == [recs[0]] + [recs[1]];
  }
}
