// Exactly when a list built by upserts agrees with the one-shot form: one upsert
// at a time, and over whole streams.
module MessageAgreement {
  import opened Wrappers
  import opened MessageList

  // ---------------------------------------------------------------------
  // Which identities survive
  // ---------------------------------------------------------------------

  lemma {:induction false} OfKeyHolds(items: seq<LocalMessage>, key: string)
    ensures OfKey(items, key) != [] <==> HasKey(items, key)
  {
    if items != [] {
      var before := items[..|items| - 1];
      OfKeyHolds(before, key);
      OfKeyLast(items, key);
      HasKeyOfLast(items, key);
    }
  }

  lemma HasKeyOfLast(items: seq<LocalMessage>, key: string)
    requires items != []
    ensures HasKey(items, key) <==> HasKey(items[..|items| - 1], key) || Key(items[|items| - 1]) == key
  {
    HasKeyIn(items, key);
    HasKeyIn(items[..|items| - 1], key);
    assert items == items[..|items| - 1] + [items[|items| - 1]];
  }

  /** Having an identity is having an entry of it. */
  lemma HasKeyIn(items: seq<LocalMessage>, key: string)
    ensures HasKey(items, key) <==> exists item :: item in items && Key(item) == key
  {
    if HasKey(items, key) {
      var i :| 0 <= i < |items| && Key(items[i]) == key;
      assert items[i] in items;
    }
  }

  lemma NormalFormKeys(items: seq<LocalMessage>, now: string, key: string)
    ensures HasKey(NormalForm(items, now), key) <==> HasKey(items, key)
  {
    EntryMergesItsKey(items, key, now);
    OfKeyHolds(items, key);
    NormalFormIsWellFormed(items, now);
    RepresentedKey(NormalForm(items, now), Collapse(items, now).entries, key);
  }

  /** An upsert that matches an entry by its id alone loses that identity. */
  lemma MatchedByIdIsLost(items: seq<LocalMessage>, message: LocalMessage, now: string)
    requires DistinctKeys(items) && !MatchesByIdentity(items, message, now)
    ensures
      var lost := Key(items[FindMessageIndex(items, WithDefaults(message, now))]);
      HasKey(items, lost) && lost != Key(message) && !HasKey(Upsert(items, message, now), lost)
  {
    var normalized := WithDefaults(message, now);
    var existing := FindMessageIndex(items, normalized);
    var next := items[existing := Merge(items[existing], normalized, now)];
    forall i | 0 <= i < |next| ensures Key(next[i]) != Key(items[existing]) {
      assert i == existing || next[i] == items[i];
    }
    NormalFormKeys(next, now, Key(items[existing]));
  }

  /** An upsert loses no identity exactly when the entry it matched, if any,
      has the identity of the message rather than only its id. */
  lemma UpsertKeepsEveryIdentity(items: seq<LocalMessage>, message: LocalMessage, now: string)
    requires DistinctKeys(items)
    ensures (forall key :: HasKey(items, key) ==> HasKey(Upsert(items, message, now), key))
            <==> MatchesByIdentity(items, message, now)
  {
    if MatchesByIdentity(items, message, now) {
      var normalized := WithDefaults(message, now);
      var existing := FindMessageIndex(items, normalized);
      var next := if existing < 0 then items + [normalized]
                  else items[existing := Merge(items[existing], normalized, now)];
      forall key | HasKey(items, key) ensures HasKey(Upsert(items, message, now), key) {
        var i :| 0 <= i < |items| && Key(items[i]) == key;
        assert Key(next[i]) == key;
        NormalFormKeys(next, now, key);
      }
    } else {
      MatchedByIdIsLost(items, message, now);
    }
  }

  // ---------------------------------------------------------------------
  // One upsert against the one-shot form
  // ---------------------------------------------------------------------

  /** A list of distinct complete entries is collapsed to itself, in order. */
  lemma {:induction false} CollapseKeepsTheList(items: seq<LocalMessage>, now: string)
    requires DistinctKeys(items) && AllComplete(items)
    ensures Values(Collapse(items, now)) == items
  {
    if items != [] {
      var before, last := items[..|items| - 1], items[|items| - 1];
      CollapseKeepsTheList(before, now);
      CollapseOfDistinct(before, now);
      RepresentedKey(before, Collapse(before, now).entries, Key(last));
      AbsorbNew(Collapse(before, now), last, now);
      assert WithDefaults(last, now) == last;
    }
  }

  lemma AbsorbNew(index: Index, item: LocalMessage, now: string)
    requires WellFormedIndex(index) && Key(item) !in index.entries
    ensures WellFormedIndex(Absorb(index, item, now))
    ensures Values(Absorb(index, item, now)) == Values(index) + [WithDefaults(item, now)]
  {
    AbsorbKeepsWellFormed(index, item, now);
    var next := Absorb(index, item, now);
    forall i | 0 <= i < |index.order| ensures next.order[i] == index.order[i] && Values(next)[i] == Values(index)[i] {
      assert index.order[i] in index.entries;
    }
  }

  lemma AbsorbKnown(index: Index, item: LocalMessage, now: string, position: nat)
    requires WellFormedIndex(index) && position < |index.order| && index.order[position] == Key(item)
    ensures WellFormedIndex(Absorb(index, item, now))
    ensures Values(Absorb(index, item, now))
         == Values(index)[position := Merge(Values(index)[position], WithDefaults(item, now), now)]
  {
    AbsorbKeepsWellFormed(index, item, now);
    assert index.order[position] in index.entries;
  }

  lemma OrderIsTheKeys(items: seq<LocalMessage>, now: string, i: nat)
    requires Values(Collapse(items, now)) == items && i < |items|
    ensures |Collapse(items, now).order| == |items| && Collapse(items, now).order[i] == Key(items[i])
  {
    var index := Collapse(items, now);
    assert Values(index)[i] == index.entries[index.order[i]];
  }

  lemma ReplacedStaysDistinct(items: seq<LocalMessage>, position: nat, item: LocalMessage)
    requires DistinctKeys(items) && AllComplete(items)
    requires position < |items| && Key(item) == Key(items[position]) && Complete(item)
    ensures DistinctKeys(items[position := item]) && AllComplete(items[position := item])
  {}

  lemma CollapseAppended(items: seq<LocalMessage>, message: LocalMessage, now: string)
    ensures Collapse(items + [message], now) == Absorb(Collapse(items, now), message, now)
  {
    assert (items + [message])[..|items|] == items;
  }

  /** The values collapsed from a list and a message of a new identity. */
  lemma AppendedValues(items: seq<LocalMessage>, message: LocalMessage, now: string)
    requires DistinctKeys(items) && AllComplete(items) && !HasKey(items, Key(message))
    ensures Values(Collapse(items + [message], now)) == items + [WithDefaults(message, now)]
  {
    CollapseKeepsTheList(items, now);
    CollapseOfDistinct(items, now);
    RepresentedKey(items, Collapse(items, now).entries, Key(message));
    AbsorbNew(Collapse(items, now), message, now);
    CollapseAppended(items, message, now);
  }

  /** The values collapsed from a list and a message of a known identity. */
  lemma MergedValues(items: seq<LocalMessage>, message: LocalMessage, now: string, position: nat)
    requires DistinctKeys(items) && AllComplete(items) && position < |items| && Key(items[position]) == Key(message)
    ensures Values(Collapse(items + [message], now))
         == items[position := Merge(items[position], WithDefaults(message, now), now)]
  {
    CollapseKeepsTheList(items, now);
    OrderIsTheKeys(items, now, position);
    AbsorbKnown(Collapse(items, now), message, now, position);
    CollapseAppended(items, message, now);
  }

  lemma MatchedUpsertIsOneShot(items: seq<LocalMessage>, message: LocalMessage, now: string)
    requires DistinctKeys(items) && AllComplete(items) && MatchesByIdentity(items, message, now)
    ensures Upsert(items, message, now) == NormalForm(items + [message], now)
  {
    var normalized := WithDefaults(message, now);
    var existing := FindMessageIndex(items, normalized);
    if existing < 0 {
      AppendedValues(items, message, now);
      AppendedValues(items, normalized, now);
      assert Upsert(items, message, now) == NormalForm(items + [normalized], now);
    } else {
      var merged := Merge(items[existing], normalized, now);
      MergedValues(items, message, now, existing);
      ReplacedStaysDistinct(items, existing, merged);
      CollapseKeepsTheList(items[existing := merged], now);
      assert Upsert(items, message, now) == NormalForm(items[existing := merged], now);
    }
  }

  /** One upsert into a well-formed list gives the one-shot form of the list
      and the message exactly when it matches by identity, or nothing. */
  lemma UpsertAgreesWithOneShot(items: seq<LocalMessage>, message: LocalMessage, now: string)
    requires WellFormed(items)
    ensures Upsert(items, message, now) == NormalForm(items + [message], now)
            <==> MatchesByIdentity(items, message, now)
  {
    if MatchesByIdentity(items, message, now) {
      MatchedUpsertIsOneShot(items, message, now);
    } else {
      MatchedByIdIsLost(items, message, now);
      var lost := Key(items[FindMessageIndex(items, WithDefaults(message, now))]);
      NormalFormKeys(items + [message], now, lost);
      assert (items + [message])[..|items|] == items;
      HasKeyOfLast(items + [message], lost);
    }
  }

  // ---------------------------------------------------------------------
  // Whole streams against the one-shot form
  // ---------------------------------------------------------------------

  /** Every upsert of the stream matches by identity, or nothing. */
  predicate AllMatchByIdentity(stream: seq<LocalMessage>, times: seq<string>)
    requires |stream| == |times|
  {
    var n := |stream|;
    n == 0
    || (AllMatchByIdentity(stream[..n - 1], times[..n - 1])
        && MatchesByIdentity(UpsertAll(stream[..n - 1], times[..n - 1]), stream[n - 1], times[n - 1]))
  }

  /** After every part of the stream the list holds exactly the entries of the
      one-shot form of that part. */
  ghost predicate AgreesThroughout(stream: seq<LocalMessage>, times: seq<string>, now: string)
    requires |stream| == |times|
  {
    var n := |stream|;
    && (n == 0 || AgreesThroughout(stream[..n - 1], times[..n - 1], now))
    && Represents(UpsertAll(stream, times), Collapse(stream, now).entries)
  }

  lemma {:induction false} UpsertIsWellFormed(items: seq<LocalMessage>, message: LocalMessage, now: string)
    ensures WellFormed(Upsert(items, message, now))
  {
    var normalized := WithDefaults(message, now);
    var existing := FindMessageIndex(items, normalized);
    NormalFormIsWellFormed(
      if existing < 0 then items + [normalized] else items[existing := Merge(items[existing], normalized, now)], now);
  }

  lemma {:induction false} UpsertAllIsWellFormed(stream: seq<LocalMessage>, times: seq<string>)
    requires |stream| == |times|
    ensures WellFormed(UpsertAll(stream, times))
  {
    var n := |stream|;
    if n > 0 {
      UpsertIsWellFormed(UpsertAll(stream[..n - 1], times[..n - 1]), stream[n - 1], times[n - 1]);
    }
  }

  /** The folded list and the one-shot form hold the same entries after every
      part of a stream exactly when no upsert matches by id alone. */
  lemma {:induction false} StreamAgreement(stream: seq<LocalMessage>, times: seq<string>, now: string)
    requires |stream| == |times| && Stamped(stream)
    ensures AgreesThroughout(stream, times, now) <==> AllMatchByIdentity(stream, times)
  {
    var n := |stream|;
    if n == 0 {
      NothingAgrees(stream, times, now);
    } else {
      StreamAgreement(stream[..n - 1], times[..n - 1], now);
      if AllMatchByIdentity(stream[..n - 1], times[..n - 1]) {
        LastUpsertAgrees(stream, times, now);
      }
    }
  }

  lemma NothingAgrees(stream: seq<LocalMessage>, times: seq<string>, now: string)
    requires |stream| == |times| == 0
    ensures Represents(UpsertAll(stream, times), Collapse(stream, now).entries)
  {}

  lemma LastUpsertAgrees(stream: seq<LocalMessage>, times: seq<string>, now: string)
    requires |stream| == |times| > 0 && stream[|stream| - 1].lastUpdatedAt.Some?
    requires
      var n := |stream|;
      Represents(UpsertAll(stream[..n - 1], times[..n - 1]), Collapse(stream[..n - 1], now).entries)
    ensures
      var n := |stream|;
      Represents(UpsertAll(stream, times), Collapse(stream, now).entries)
      <==> MatchesByIdentity(UpsertAll(stream[..n - 1], times[..n - 1]), stream[n - 1], times[n - 1])
  {
    var n := |stream|;
    var items, message, time := UpsertAll(stream[..n - 1], times[..n - 1]), stream[n - 1], times[n - 1];
    var entries := Collapse(stream[..n - 1], now).entries;
    UpsertAllIsWellFormed(stream[..n - 1], times[..n - 1]);
    CollapseLast(stream, now);
    RecordingIgnoresTheTime(entries, message, time, now);
    if MatchesByIdentity(items, message, time) {
      UpsertRecordsUnderItsKey(items, entries, message, time);
    } else {
      var lost := Key(items[FindMessageIndex(items, WithDefaults(message, time))]);
      MatchedByIdIsLost(items, message, time);
      RepresentedKey(items, entries, lost);
      RecordedAt(entries, WithDefaults(message, now), now, lost);
      if Represents(UpsertAll(stream, times), Collapse(stream, now).entries) {
        RepresentedKey(UpsertAll(stream, times), Collapse(stream, now).entries, lost);
      }
    }
  }

  /** And then, with no id left on two entries, the lists are the same: an id
      may change its identity on the way. */
  lemma MatchingStreamIsOneShot(stream: seq<LocalMessage>, times: seq<string>, now: string)
    requires |stream| == |times| && Stamped(stream) && AllMatchByIdentity(stream, times)
    requires DistinctIds(Collapse(stream, now).entries)
    ensures UpsertAll(stream, times) == NormalForm(stream, now)
  {
    StreamAgreement(stream, times, now);
    UpsertAllIsWellFormed(stream, times);
    NormalFormIsWellFormed(stream, now);
    ListIsDeterminedByTable(UpsertAll(stream, times), NormalForm(stream, now), Collapse(stream, now).entries);
  }

  // ---------------------------------------------------------------------
  // Streams that disagree
  // ---------------------------------------------------------------------

  /** The two ways of building a list differ once an id is shared by two
      identities. */
  lemma SharedIdBreaksTheAgreement(first: LocalMessage, second: LocalMessage, now: string)
    requires Complete(first) && Complete(second)
    requires first.envelope.id == second.envelope.id && Key(first) != Key(second)
    ensures |UpsertAll([first, second], [now, now])| == 1 && |NormalForm([first, second], now)| == 2
  {
    assert [first, second][..1] == [first] && [now, now][..1] == [now];
    assert [first][..0] == [] && [now][..0] == [] && [] + [first] == [first];
    assert WithDefaults(first, now) == first && WithDefaults(second, now) == second;
    SingletonNormalForm(first, now);
    assert UpsertAll([], []) == [];
    assert UpsertAll([first], [now]) == [first];
    UpsertOntoItsId(first, second, now);
    PairCollapses(first, second, now);
  }

  lemma UpsertOntoItsId(first: LocalMessage, second: LocalMessage, now: string)
    requires Complete(first) && Complete(second) && first.envelope.id == second.envelope.id
    ensures |Upsert([first], second, now)| == 1
  {
    assert WithDefaults(second, now) == second;
    assert Matches([first][0], second);
    var merged := Merge(first, second, now);
    assert [first][0 := merged] == [merged];
    SingletonNormalForm(merged, now);
  }

  /** Such messages exist: two senders' copies under one id. */
  lemma SharedIdsExist(id: string, left: string, right: string, client: string, now: string)
    requires left != "" && right != "" && client != "" && left != right && |left| == |right|
    ensures
      var first := LocalMessage(Envelope(id, left, client, 1, now, ""), SentState, "", None, None, None, Some(Sent),
        None, None, Some(now));
      var second := first.(envelope := first.envelope.(senderDeviceId := right));
      Key(first) != Key(second)
  {
    var first := LocalMessage(Envelope(id, left, client, 1, now, ""), SentState, "", None, None, None, Some(Sent),
      None, None, Some(now));
    var second := first.(envelope := first.envelope.(senderDeviceId := right));
    assert Key(first)[7..][..|left|] == left && Key(second)[7..][..|right|] == right;
  }

  lemma PairCollapses(first: LocalMessage, second: LocalMessage, now: string)
    requires Complete(first) && Complete(second) && Key(first) != Key(second)
    ensures |NormalForm([first, second], now)| == 2
  {
    var pair := [first, second];
    assert pair[..1] == [first] && [first][..0] == [];
    assert WithDefaults(first, now) == first && WithDefaults(second, now) == second;
    assert Collapse([first], now).order == [Key(first)];
    assert Collapse(pair, now).order == [Key(first), Key(second)];
    var values := Values(Collapse(pair, now));
    assert |values| == 2;
    SortKeepsLength(values);
  }

  lemma {:induction false} SortKeepsLength(items: seq<LocalMessage>)
    ensures |Sort(items)| == |items|
  {
    if items != [] {
      SortKeepsLength(items[..|items| - 1]);
      InsertLengthens(Sort(items[..|items| - 1]), items[|items| - 1]);
    }
  }

  lemma {:induction false} InsertLengthens(items: seq<LocalMessage>, item: LocalMessage)
    ensures |Insert(items, item)| == |items| + 1
  {
    var n := |items|;
    if n > 0 && Compare(item, items[n - 1]) < 0 {
      InsertLengthens(items[..n - 1], item);
    }
  }

  lemma SingletonNormalForm(item: LocalMessage, now: string)
    requires Complete(item)
    ensures NormalForm([item], now) == [item]
  {
    assert [item][..0] == [];
    assert WithDefaults(item, now) == item;
    var index := Collapse([item], now);
    assert Collapse([], now) == Index([], map[]);
    assert index == Absorb(Index([], map[]), item, now);
    var values := Values(index);
    assert values == [item] && values[..0] == [];
    assert Sort([]) == [];
  }
}
