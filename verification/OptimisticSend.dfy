// What a send shows: the optimistic entry, whatever happens to the list in the
// meantime, and the confirmed message that replaces it.
module OptimisticSend {
  import opened Wrappers
  import opened MessageList
  import opened MessageAgreement
  import opened MessageStore

  /** What may happen to a conversation's list between the two: upserts, of this
      message or others, lifecycle updates by reference, and loading the
      conversation, which puts another list in its place. */
  datatype Edit =
    | Put(message: LocalMessage, now: string)
    | Touch(device: string, client: string, patch: Patch, now: string)
    | Load(items: seq<LocalMessage>, now: string)

  function Edited(items: seq<LocalMessage>, edit: Edit): seq<LocalMessage> {
    match edit
    case Put(message, now) => Upsert(items, message, now)
    case Touch(device, client, patch, now) => UpdateLifecycle(items, device, client, patch, now)
    case Load(loaded, now) => NormalForm(loaded, now)
  }

  function EditedAll(items: seq<LocalMessage>, edits: seq<Edit>): seq<LocalMessage> {
    if edits == [] then items
    else Edited(EditedAll(items, edits[..|edits| - 1]), edits[|edits| - 1])
  }

  /** No upsert of the run matches another identity by its id. */
  predicate EditsMatch(items: seq<LocalMessage>, edits: seq<Edit>) {
    edits == []
    || (EditsMatch(items, edits[..|edits| - 1])
        && var last := edits[|edits| - 1];
           last.Put? ==> MatchesByIdentity(EditedAll(items, edits[..|edits| - 1]), last.message, last.now))
  }

  /** The edit is about the message of this identity. */
  predicate Concerns(edit: Edit, key: string) {
    match edit
    case Put(message, _) => Key(message) == key
    case Touch(device, client, _, _) => device != "" && client != "" && "client:" + device + ":" + client == key
    case Load(_, _) => false
  }

  // ---------------------------------------------------------------------
  // The text of an identity
  // ---------------------------------------------------------------------

  /** The text that the list shows for an identity, if any. */
  function TextOf(items: seq<LocalMessage>, key: string): Option<string> {
    if items == [] then None
    else if Key(items[0]) == key then items[0].plaintext
    else TextOf(items[1..], key)
  }

  /** The last text that messages of the identity bring along. */
  function LastText(messages: seq<LocalMessage>, key: string): Option<string> {
    if messages == [] then None
    else
      var last := messages[|messages| - 1];
      if Key(last) == key then Else(last.plaintext, LastText(messages[..|messages| - 1], key))
      else LastText(messages[..|messages| - 1], key)
  }

  /** The text of an identity after an edit: an upsert of it may bring another
      one, and loading forgets what it does not bring. */
  function TextNext(known: Option<string>, key: string, edit: Edit): Option<string> {
    match edit
    case Put(message, _) => if Key(message) == key then Else(message.plaintext, known) else known
    case Touch(_, _, _, _) => known
    case Load(loaded, _) => LastText(loaded, key)
  }

  function TextAfter(text: Option<string>, key: string, edits: seq<Edit>): Option<string> {
    if edits == [] then text
    else TextNext(TextAfter(text, key, edits[..|edits| - 1]), key, edits[|edits| - 1])
  }

  lemma {:induction false} TextAt(items: seq<LocalMessage>, key: string, i: nat)
    requires DistinctKeys(items) && i < |items| && Key(items[i]) == key
    ensures TextOf(items, key) == items[i].plaintext
  {
    if i > 0 {
      assert Key(items[0]) != Key(items[i]);
      assert forall k :: 0 <= k < |items[1..]| ==> items[1..][k] == items[k + 1];
      TextAt(items[1..], key, i - 1);
    }
  }

  lemma {:induction false} NoText(items: seq<LocalMessage>, key: string)
    requires forall i :: 0 <= i < |items| ==> Key(items[i]) != key
    ensures TextOf(items, key) == None
  {
    if items != [] {
      assert forall k :: 0 <= k < |items[1..]| ==> items[1..][k] == items[k + 1];
      NoText(items[1..], key);
    }
  }

  /** The text is that of the table's entry. */
  lemma TextInTable(items: seq<LocalMessage>, entries: Table, key: string)
    requires Represents(items, entries)
    ensures TextOf(items, key) == if key in entries then entries[key].plaintext else None
  {
    if key in entries {
      var i :| 0 <= i < |items| && items[i] == entries[key];
      TextAt(items, key, i);
    } else {
      NoText(items, key);
    }
  }

  lemma {:induction false} CollapsedText(messages: seq<LocalMessage>, now: string, key: string)
    ensures
      var entries := Collapse(messages, now).entries;
      LastText(messages, key) == if key in entries then entries[key].plaintext else None
  {
    if messages != [] {
      var before, last := messages[..|messages| - 1], messages[|messages| - 1];
      CollapsedText(before, now, key);
      CollapseLast(messages, now);
      RecordedAt(Collapse(before, now).entries, WithDefaults(last, now), now, key);
    }
  }

  /** A loaded list shows the last text its messages bring. */
  lemma LoadedText(messages: seq<LocalMessage>, now: string, key: string)
    ensures TextOf(NormalForm(messages, now), key) == LastText(messages, key)
  {
    NormalFormIsWellFormed(messages, now);
    TextInTable(NormalForm(messages, now), Collapse(messages, now).entries, key);
    CollapsedText(messages, now, key);
  }

  // ---------------------------------------------------------------------
  // One edit
  // ---------------------------------------------------------------------

  /** An upsert brings its own envelope and text, keeps the text known so far
      when it brings none, and leaves all other identities alone. */
  lemma UpsertShows(items: seq<LocalMessage>, message: LocalMessage, now: string)
    requires WellFormed(items) && MatchesByIdentity(items, message, now)
    ensures
      var result := Upsert(items, message, now);
      && WellFormed(result)
      && TextOf(result, Key(message)) == Else(message.plaintext, TextOf(items, Key(message)))
      && (exists i :: 0 <= i < |result| && Key(result[i]) == Key(message) && result[i].envelope == message.envelope)
      && (forall x :: Key(x) != Key(message) ==> (x in result <==> x in items))
  {
    var entries, normalized := Collapse(items, "").entries, WithDefaults(message, now);
    var result, after := Upsert(items, message, now), With(entries, normalized, now);
    CollapseOfDistinct(items, "");
    UpsertRecordsUnderItsKey(items, entries, message, now);
    RecordedAt(entries, normalized, now, Key(message));
    TextInTable(items, entries, Key(message));
    TextInTable(result, after, Key(message));
    InTable(result, after, after[Key(message)]);
    var k :| 0 <= k < |result| && result[k] == after[Key(message)];
    RecordingLeavesOthers(items, entries, result, normalized, now);
  }

  lemma RecordingLeavesOthers(
    items: seq<LocalMessage>, entries: Table, result: seq<LocalMessage>, item: LocalMessage, now: string)
    requires Represents(items, entries) && Represents(result, With(entries, item, now))
    ensures forall x :: Key(x) != Key(item) ==> (x in result <==> x in items)
  {
    forall x | Key(x) != Key(item) ensures x in result <==> x in items {
      InTable(items, entries, x);
      InTable(result, With(entries, item, now), x);
      RecordedAt(entries, item, now, Key(x));
    }
  }

  lemma UpsertKeepsOtherText(items: seq<LocalMessage>, message: LocalMessage, now: string, key: string)
    requires WellFormed(items) && MatchesByIdentity(items, message, now) && key != Key(message)
    ensures TextOf(Upsert(items, message, now), key) == TextOf(items, key)
  {
    var entries, normalized := Collapse(items, "").entries, WithDefaults(message, now);
    CollapseOfDistinct(items, "");
    UpsertRecordsUnderItsKey(items, entries, message, now);
    RecordedAt(entries, normalized, now, key);
    TextInTable(items, entries, key);
    TextInTable(Upsert(items, message, now), With(entries, normalized, now), key);
  }

  lemma {:induction false} SameTexts(items: seq<LocalMessage>, result: seq<LocalMessage>, key: string)
    requires |result| == |items|
    requires forall i :: 0 <= i < |items| ==>
                           result[i].envelope == items[i].envelope && result[i].plaintext == items[i].plaintext
    ensures TextOf(result, key) == TextOf(items, key)
  {
    if items != [] {
      assert Key(result[0]) == Key(items[0]);
      assert forall k :: 0 <= k < |items[1..]| ==> items[1..][k] == items[k + 1] && result[1..][k] == result[k + 1];
      SameTexts(items[1..], result[1..], key);
    }
  }

  /** A lifecycle update changes no envelope and no text. */
  lemma TouchShows(items: seq<LocalMessage>, edit: Edit, key: string)
    requires edit.Touch? && WellFormed(items)
    ensures WellFormed(Edited(items, edit)) && TextOf(Edited(items, edit), key) == TextOf(items, key)
    ensures Concerns(edit, key) ==> forall x :: Key(x) != key ==> (x in Edited(items, edit) <==> x in items)
  {
    UpdateKeepsWellFormed(items, edit.device, edit.client, edit.patch, edit.now);
    SameTexts(items, Edited(items, edit), key);
    if Concerns(edit, key) {
      TouchLeavesOthers(items, edit, key);
    }
  }

  lemma TouchLeavesOthers(items: seq<LocalMessage>, edit: Edit, key: string)
    requires edit.Touch? && Concerns(edit, key)
    ensures forall x :: Key(x) != key ==> (x in Edited(items, edit) <==> x in items)
  {
    var index, result := FindClientReference(items, edit.device, edit.client), Edited(items, edit);
    if index >= 0 {
      ReferenceFound(items, edit.device, edit.client);
      forall x | Key(x) != key ensures x in result <==> x in items {
        if x in items {
          var k :| 0 <= k < |items| && items[k] == x;
          assert result[k] == x;
        }
        if x in result {
          var k :| 0 <= k < |result| && result[k] == x;
          assert items[k] == x;
        }
      }
    }
  }

  lemma {:induction false} ReferenceFound(items: seq<LocalMessage>, device: string, client: string)
    ensures
      var index := FindClientReference(items, device, client);
      index >= 0 ==> IsSameClientReference(items[index], device, client)
  {
    if items != [] && !IsSameClientReference(items[0], device, client) {
      ReferenceFound(items[1..], device, client);
    }
  }

  // ---------------------------------------------------------------------
  // Runs of edits
  // ---------------------------------------------------------------------

  lemma OneEditShows(items: seq<LocalMessage>, edit: Edit, key: string)
    requires WellFormed(items)
    requires edit.Put? ==> MatchesByIdentity(items, edit.message, edit.now)
    ensures WellFormed(Edited(items, edit))
    ensures TextOf(Edited(items, edit), key) == TextNext(TextOf(items, key), key, edit)
    ensures Concerns(edit, key) ==> forall x :: Key(x) != key ==> (x in Edited(items, edit) <==> x in items)
  {
    match edit
    case Put(message, now) =>
      UpsertShows(items, message, now);
      if Key(message) != key {
        UpsertKeepsOtherText(items, message, now, key);
      }
    case Touch(_, _, _, _) => TouchShows(items, edit, key);
    case Load(loaded, now) =>
      NormalFormIsWellFormed(loaded, now);
      LoadedText(loaded, now, key);
  }

  lemma {:induction false} EditsShow(items: seq<LocalMessage>, edits: seq<Edit>, key: string)
    requires WellFormed(items) && EditsMatch(items, edits)
    ensures WellFormed(EditedAll(items, edits))
    ensures TextOf(EditedAll(items, edits), key) == TextAfter(TextOf(items, key), key, edits)
    ensures (forall i :: 0 <= i < |edits| ==> Concerns(edits[i], key)) ==>
              forall x :: Key(x) != key ==> (x in EditedAll(items, edits) <==> x in items)
  {
    if edits != [] {
      var before, last := edits[..|edits| - 1], edits[|edits| - 1];
      EditsShow(items, before, key);
      OneEditShows(EditedAll(items, before), last, key);
    }
  }

  /** An optimistic entry, any edits, and then the confirmed message of the same
      identity leave exactly one entry of it: the confirmed envelope, with the
      text it brings or else exactly the text known locally by then. When
      everything in between concerns this message, all other entries are what
      they were. */
  lemma OptimisticIsReplaced(
    items: seq<LocalMessage>, optimistic: LocalMessage, before: string, edits: seq<Edit>,
    confirmed: LocalMessage, after: string)
    requires WellFormed(items) && Key(optimistic) == Key(confirmed)
    requires MatchesByIdentity(items, optimistic, before) && EditsMatch(Upsert(items, optimistic, before), edits)
    requires MatchesByIdentity(EditedAll(Upsert(items, optimistic, before), edits), confirmed, after)
    ensures
      var key := Key(confirmed);
      var shown := Else(optimistic.plaintext, TextOf(items, key));
      var result := Upsert(EditedAll(Upsert(items, optimistic, before), edits), confirmed, after);
      && WellFormed(result)
      && (exists i :: 0 <= i < |result| && Key(result[i]) == key && result[i].envelope == confirmed.envelope
                      && result[i].plaintext == Else(confirmed.plaintext, TextAfter(shown, key, edits)))
      && ((forall i :: 0 <= i < |edits| ==> Concerns(edits[i], key)) ==>
            forall x :: Key(x) != key ==> (x in result <==> x in items))
  {
    var key := Key(confirmed);
    var shown := Upsert(items, optimistic, before);
    UpsertShows(items, optimistic, before);
    EditsShow(shown, edits, key);
    var result := Upsert(EditedAll(shown, edits), confirmed, after);
    UpsertShows(EditedAll(shown, edits), confirmed, after);
    var i :| 0 <= i < |result| && Key(result[i]) == key && result[i].envelope == confirmed.envelope;
    TextAt(result, key, i);
  }

  // ---------------------------------------------------------------------
  // When the text survives
  // ---------------------------------------------------------------------

  /** The edit brings no other text of the identity and forgets none. */
  predicate KeepsText(edit: Edit, key: string, text: string) {
    match edit
    case Put(message, _) => Key(message) == key && message.plaintext.Some? ==> message.plaintext == Some(text)
    case Touch(_, _, _, _) => true
    case Load(loaded, _) => LastText(loaded, key) == Some(text)
  }

  predicate AllKeep(text: string, key: string, edits: seq<Edit>) {
    forall i :: 0 <= i < |edits| ==> KeepsText(edits[i], key, text)
  }

  lemma AllKeepLast(text: string, key: string, edits: seq<Edit>)
    requires edits != []
    ensures AllKeep(text, key, edits) <==>
            AllKeep(text, key, edits[..|edits| - 1]) && KeepsText(edits[|edits| - 1], key, text)
  {
    assert forall i :: 0 <= i < |edits| - 1 ==> edits[..|edits| - 1][i] == edits[i];
  }

  /** The text is known after every part of the edits. */
  predicate KnownThroughout(text: string, key: string, edits: seq<Edit>) {
    && TextAfter(Some(text), key, edits) == Some(text)
    && (edits == [] || KnownThroughout(text, key, edits[..|edits| - 1]))
  }

  /** The text sent stays known exactly when no upsert of the message brings
      another one and every list loaded in between has it: loading drops the
      optimistic entry, and with it a text that only this entry had. */
  lemma {:induction false} WhenTheTextSurvives(text: string, key: string, edits: seq<Edit>)
    ensures KnownThroughout(text, key, edits) <==> AllKeep(text, key, edits)
  {
    if edits != [] {
      var before, last := edits[..|edits| - 1], edits[|edits| - 1];
      WhenTheTextSurvives(text, key, before);
      AllKeepLast(text, key, edits);
      if KnownThroughout(text, key, before) {
        OneEditKeepsText(text, key, last);
      }
    }
  }

  /** A list loaded before the message is stored anywhere does not have it. */
  lemma LoadingForgetsTheText(text: string, key: string, loaded: seq<LocalMessage>, now: string)
    requires !HasKey(loaded, key)
    ensures TextAfter(Some(text), key, [Load(loaded, now)]) == None
  {
    assert [Load(loaded, now)][..0] == [];
    EntryMergesItsKey(loaded, key, now);
    OfKeyHolds(loaded, key);
    CollapsedText(loaded, now, key);
  }

  lemma OneEditKeepsText(text: string, key: string, edit: Edit)
    ensures TextNext(Some(text), key, edit) == Some(text) <==> KeepsText(edit, key, text)
  {}
}
