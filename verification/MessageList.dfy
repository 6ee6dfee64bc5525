// The per-conversation message lists of the desktop client: identity keys,
// merging, the one-shot normal form and the incremental upsert.
//
// Timestamps and identifiers are text compared code unit by code unit. An
// optional member that is absent or undefined is None.
module MessageList {
  import opened Wrappers

  datatype Lifecycle = Draft | Encrypting | Queued | Sending | Sent | Delivered | Failed | Expired

  datatype DeliveryState = PendingState | QueuedState | SentState | DeliveredState | FailedState | ExpiredState

  datatype Envelope = Envelope(
    id: string, senderDeviceId: string, clientMessageId: string,
    serverSequence: int, createdAt: string, content: string)

  datatype LocalMessage = LocalMessage(
    envelope: Envelope, deliveryState: DeliveryState, receipts: string,
    plaintext: Option<string>, decryptError: Option<string>, expired: Option<bool>,
    lifecycle: Option<Lifecycle>, retryableFailure: Option<bool>, failureCode: Option<string>,
    lastUpdatedAt: Option<string>)

  // ---------------------------------------------------------------------
  // Defaults, identity and merging
  // ---------------------------------------------------------------------

  function Else<T>(first: Option<T>, second: Option<T>): Option<T> {
    if first.Some? then first else second
  }

  function LifecycleFromDeliveryState(item: LocalMessage): Lifecycle {
    if item.expired == Some(true) then Expired
    else match item.deliveryState
      case QueuedState => Queued
      case SentState => Sent
      case DeliveredState => Delivered
      case FailedState => Failed
      case ExpiredState => Expired
      case PendingState => Sending
  }

  function WithDefaults(item: LocalMessage, now: string): LocalMessage {
    item.(lifecycle := Else(item.lifecycle, Some(LifecycleFromDeliveryState(item))),
          lastUpdatedAt := Else(item.lastUpdatedAt, Some(now)))
  }

  function Key(item: LocalMessage): string {
    var Envelope(id, device, client, _, _, _) := item.envelope;
    if device != "" && client != "" then "client:" + device + ":" + client else "id:" + id
  }

  function Merge(existing: LocalMessage, incoming: LocalMessage, now: string): LocalMessage {
    incoming.(
    plaintext := Else(incoming.plaintext, existing.plaintext),
    decryptError := Else(incoming.decryptError, existing.decryptError),
    expired := Else(incoming.expired, existing.expired),
    retryableFailure := Else(incoming.retryableFailure, existing.retryableFailure),
    failureCode := Else(incoming.failureCode, existing.failureCode),
    lifecycle := Else(incoming.lifecycle, existing.lifecycle),
    lastUpdatedAt := Else(incoming.lastUpdatedAt, Some(now)))
  }

  predicate IsSameClientReference(item: LocalMessage, device: string, client: string) {
    item.envelope.senderDeviceId == device && item.envelope.clientMessageId == client
  }

  // ---------------------------------------------------------------------
  // The order of a list
  // ---------------------------------------------------------------------

  predicate TextLess(a: string, b: string) {
    b != "" && (a == "" || a[0] < b[0] || (a[0] == b[0] && TextLess(a[1..], b[1..])))
  }

  function Compare(left: LocalMessage, right: LocalMessage): int {
    var l, r := left.envelope, right.envelope;
    if l.serverSequence != r.serverSequence then l.serverSequence - r.serverSequence
    else if TextLess(l.createdAt, r.createdAt) then -1
    else if TextLess(r.createdAt, l.createdAt) then 1
    else if TextLess(l.id, r.id) then -1
    else if TextLess(r.id, l.id) then 1
    else 0
  }

  /** Stable insertion: after everything that does not compare greater. */
  function Insert(items: seq<LocalMessage>, item: LocalMessage): seq<LocalMessage> {
    var n := |items|;
    if n > 0 && Compare(item, items[n - 1]) < 0 then Insert(items[..n - 1], item) + [items[n - 1]]
    else items + [item]
  }

  function Sort(items: seq<LocalMessage>): seq<LocalMessage> {
    var n := |items|;
    if n == 0 then [] else Insert(Sort(items[..n - 1]), items[n - 1])
  }

  // ---------------------------------------------------------------------
  // The one-shot normal form
  // ---------------------------------------------------------------------

  type Table = map<string, LocalMessage>

  /** The hash map of the code: its keys in insertion order, and its values. */
  datatype Index = Index(order: seq<string>, entries: Table)

  /** The entries once `item`, defaults filled in, has been recorded. */
  function With(entries: Table, item: LocalMessage, now: string): Table {
    entries[Key(item) := if Key(item) in entries then Merge(entries[Key(item)], item, now) else item]
  }

  function Absorb(index: Index, item: LocalMessage, now: string): Index {
    var normalized := WithDefaults(item, now);
    Index(if Key(normalized) in index.entries then index.order else index.order + [Key(normalized)],
          With(index.entries, normalized, now))
  }

  function Collapse(items: seq<LocalMessage>, now: string): (index: Index)
    ensures WellFormedIndex(index)
  {
    var n := |items|;
    if n == 0 then Index([], map[])
    else
      var before := Collapse(items[..n - 1], now);
      AbsorbKeepsWellFormed(before, items[n - 1], now);
      Absorb(before, items[n - 1], now)
  }

  lemma AbsorbKeepsWellFormed(index: Index, item: LocalMessage, now: string)
    requires WellFormedIndex(index)
    ensures WellFormedIndex(Absorb(index, item, now))
  {
    var normalized, next := WithDefaults(item, now), Absorb(index, item, now);
    var key := Key(normalized);
    assert next.entries.Keys == index.entries.Keys + {key};
    assert Key(next.entries[key]) == key && Complete(next.entries[key]);
    forall k | k in next.entries ensures k in next.order && Key(next.entries[k]) == k && Complete(next.entries[k]) {
      if k == key && key !in index.entries {
        assert next.order[|index.order|] == key;
      } else {
        assert k in index.order && index.order <= next.order;
      }
    }
  }

  ghost predicate WellFormedIndex(index: Index) {
    && (forall i :: 0 <= i < |index.order| ==> index.order[i] in index.entries)
    && (forall key :: key in index.entries ==> key in index.order && Key(index.entries[key]) == key)
    && (forall i, j :: 0 <= i < j < |index.order| ==> index.order[i] != index.order[j])
    && (forall key :: key in index.entries ==> Complete(index.entries[key]))
  }

  predicate Complete(item: LocalMessage) { item.lifecycle.Some? && item.lastUpdatedAt.Some? }

  function Values(index: Index): seq<LocalMessage>
    requires WellFormedIndex(index)
  {
    seq(|index.order|, i requires 0 <= i < |index.order| => index.entries[index.order[i]])
  }

  function NormalForm(items: seq<LocalMessage>, now: string): seq<LocalMessage> {
    Sort(Values(Collapse(items, now)))
  }

  method DedupeAndSortMessages(items: seq<LocalMessage>, now: string) returns (result: seq<LocalMessage>)
    ensures result == NormalForm(items, now)
  {
    var order: seq<string> := [];
    var indexed: Table := map[];
    for i := 0 to |items|
      invariant Index(order, indexed) == Collapse(items[..i], now)
    {
      assert items[..i + 1][..i] == items[..i];
      var normalized := WithDefaults(items[i], now);
      var key := Key(normalized);
      if key !in indexed {
        order := order + [key];
        indexed := indexed[key := normalized];
      } else {
        indexed := indexed[key := Merge(indexed[key], normalized, now)];
      }
    }
    assert items[..|items|] == items;
    result := Sort(Values(Index(order, indexed)));
  }

  // ---------------------------------------------------------------------
  // The incremental operations
  // ---------------------------------------------------------------------

  /** The first position that holds the identity or the id of `target`. */
  function FindMessageIndex(items: seq<LocalMessage>, target: LocalMessage): (index: int)
    ensures -1 <= index < |items|
    ensures index >= 0 ==> Matches(items[index], target)
    ensures forall i :: 0 <= i < (if index < 0 then |items| else index) ==> !Matches(items[i], target)
  {
    if items == [] then -1
    else if Matches(items[0], target) then 0
    else
      var rest := FindMessageIndex(items[1..], target);
      assert forall i :: 1 <= i < |items| ==> items[i] == items[1..][i - 1];
      if rest < 0 then -1 else rest + 1
  }

  predicate Matches(item: LocalMessage, target: LocalMessage) {
    Key(item) == Key(target) || item.envelope.id == target.envelope.id
  }

  function Upsert(items: seq<LocalMessage>, message: LocalMessage, now: string): seq<LocalMessage> {
    var normalized := WithDefaults(message, now);
    var existing := FindMessageIndex(items, normalized);
    if existing < 0 then NormalForm(items + [normalized], now)
    else NormalForm(items[existing := Merge(items[existing], normalized, now)], now)
  }

  function FindClientReference(items: seq<LocalMessage>, device: string, client: string): (index: int)
    ensures -1 <= index < |items|
  {
    if items == [] then -1
    else if IsSameClientReference(items[0], device, client) then 0
    else
      var rest := FindClientReference(items[1..], device, client);
      if rest < 0 then -1 else rest + 1
  }

  datatype Patch = Patch(lifecycle: Lifecycle, retryableFailure: Option<bool>, failureCode: Option<string>)

  function UpdateLifecycle(items: seq<LocalMessage>, device: string, client: string, patch: Patch,
      now: string): seq<LocalMessage>
  {
    var index := FindClientReference(items, device, client);
    if index < 0 then items
    else items[index := items[index].(lifecycle := Some(patch.lifecycle), retryableFailure := patch.retryableFailure,
                                      failureCode := patch.failureCode, lastUpdatedAt := Some(now))]
  }

  function RemoveClientReference(items: seq<LocalMessage>, device: string, client: string): seq<LocalMessage> {
    if items == [] then []
    else if IsSameClientReference(items[0], device, client) then RemoveClientReference(items[1..], device, client)
    else [items[0]] + RemoveClientReference(items[1..], device, client)
  }

  // ---------------------------------------------------------------------
  // What every list satisfies
  // ---------------------------------------------------------------------

  ghost predicate DistinctKeys(items: seq<LocalMessage>) {
    forall i, j :: 0 <= i < j < |items| ==> Key(items[i]) != Key(items[j])
  }

  ghost predicate InOrder(items: seq<LocalMessage>) {
    forall i, j :: 0 <= i < j < |items| ==> Compare(items[i], items[j]) <= 0
  }

  ghost predicate AllComplete(items: seq<LocalMessage>) {
    forall i :: 0 <= i < |items| ==> Complete(items[i])
  }

  ghost predicate WellFormed(items: seq<LocalMessage>) {
    DistinctKeys(items) && InOrder(items) && AllComplete(items)
  }

  // Text comparison is a strict total order.

  lemma {:induction false} TextOrderIsTotal(a: string, b: string)
    ensures TextLess(a, b) || TextLess(b, a) || a == b
    ensures !(TextLess(a, b) && (TextLess(b, a) || a == b))
  {
    if a != "" && b != "" && a[0] == b[0] {
      TextOrderIsTotal(a[1..], b[1..]);
      assert a == [a[0]] + a[1..] && b == [b[0]] + b[1..];
    }
  }

  lemma {:induction false} TextOrderIsTransitive(a: string, b: string, c: string)
    requires TextLess(a, b) && TextLess(b, c)
    ensures TextLess(a, c)
  {
    if a != "" && a[0] == b[0] && b[0] == c[0] {
      TextOrderIsTransitive(a[1..], b[1..], c[1..]);
    }
  }

  /** The comparator is antisymmetric and vanishes only on equal positions. */
  lemma CompareIsAntisymmetric(left: LocalMessage, right: LocalMessage)
    ensures Compare(left, right) < 0 <==> Compare(right, left) > 0
    ensures Compare(left, right) == 0 <==>
            left.envelope.serverSequence == right.envelope.serverSequence
            && left.envelope.createdAt == right.envelope.createdAt && left.envelope.id == right.envelope.id
  {
    TextOrderIsTotal(left.envelope.createdAt, right.envelope.createdAt);
    TextOrderIsTotal(left.envelope.id, right.envelope.id);
  }

  lemma CompareIsTransitive(a: LocalMessage, b: LocalMessage, c: LocalMessage)
    requires Compare(a, b) <= 0 && Compare(b, c) <= 0
    ensures Compare(a, c) <= 0
    ensures Compare(a, b) < 0 || Compare(b, c) < 0 ==> Compare(a, c) < 0
  {
    CompareIsAntisymmetric(a, b);
    CompareIsAntisymmetric(b, c);
    CompareIsAntisymmetric(a, c);
    var x, y, z := a.envelope, b.envelope, c.envelope;
    TextOrderIsTotal(x.createdAt, y.createdAt);
    TextOrderIsTotal(y.createdAt, z.createdAt);
    TextOrderIsTotal(x.createdAt, z.createdAt);
    if TextLess(x.createdAt, y.createdAt) && TextLess(y.createdAt, z.createdAt) {
      TextOrderIsTransitive(x.createdAt, y.createdAt, z.createdAt);
    }
    if TextLess(x.id, y.id) && TextLess(y.id, z.id) {
      TextOrderIsTransitive(x.id, y.id, z.id);
    }
  }

  lemma {:induction false} InsertAdds(items: seq<LocalMessage>, item: LocalMessage, x: LocalMessage)
    ensures x in Insert(items, item) <==> x in items || x == item
  {
    var n := |items|;
    if n > 0 && Compare(item, items[n - 1]) < 0 {
      InsertAdds(items[..n - 1], item, x);
      assert items == items[..n - 1] + [items[n - 1]];
    }
  }

  lemma {:induction false} InsertKeepsOrder(items: seq<LocalMessage>, item: LocalMessage)
    requires InOrder(items)
    ensures InOrder(Insert(items, item))
  {
    var n := |items|;
    if n > 0 && Compare(item, items[n - 1]) < 0 {
      var before, last := items[..n - 1], items[n - 1];
      var shorter := Insert(before, item);
      InsertKeepsOrder(before, item);
      forall i | 0 <= i < |shorter| ensures Compare(shorter[i], last) <= 0 {
        InsertAdds(before, item, shorter[i]);
        if shorter[i] != item {
          var k :| 0 <= k < n - 1 && before[k] == shorter[i];
          assert items[k] == shorter[i];
        }
      }
    } else if n > 0 {
      CompareIsAntisymmetric(item, items[n - 1]);
      forall i | 0 <= i < n ensures Compare(items[i], item) <= 0 {
        if i < n - 1 {
          CompareIsTransitive(items[i], items[n - 1], item);
        }
      }
    }
  }

  lemma {:induction false} InsertKeepsKeysDistinct(items: seq<LocalMessage>, item: LocalMessage)
    requires DistinctKeys(items)
    requires forall i :: 0 <= i < |items| ==> Key(items[i]) != Key(item)
    ensures DistinctKeys(Insert(items, item))
  {
    var n := |items|;
    if n > 0 && Compare(item, items[n - 1]) < 0 {
      var before, last := items[..n - 1], items[n - 1];
      var shorter := Insert(before, item);
      InsertKeepsKeysDistinct(before, item);
      forall i | 0 <= i < |shorter| ensures Key(shorter[i]) != Key(last) {
        InsertAdds(before, item, shorter[i]);
        if shorter[i] != item {
          var k :| 0 <= k < n - 1 && before[k] == shorter[i];
          assert items[k] == shorter[i];
        }
      }
    }
  }

  lemma {:induction false} SortSorts(items: seq<LocalMessage>)
    ensures InOrder(Sort(items))
    ensures forall x :: x in Sort(items) <==> x in items
    ensures DistinctKeys(items) ==> DistinctKeys(Sort(items))
  {
    var n := |items|;
    if n > 0 {
      var before, last := Sort(items[..n - 1]), items[n - 1];
      assert items == items[..n - 1] + [last];
      SortSorts(items[..n - 1]);
      InsertKeepsOrder(before, last);
      forall x ensures x in Sort(items) <==> x in before || x == last {
        InsertAdds(before, last, x);
      }
      if DistinctKeys(items) {
        forall i | 0 <= i < |before| ensures Key(before[i]) != Key(last) {
          assert before[i] in before;
        }
        InsertKeepsKeysDistinct(before, last);
      }
    }
  }

  ghost predicate HasKey(items: seq<LocalMessage>, key: string) {
    exists i :: 0 <= i < |items| && Key(items[i]) == key
  }

  /** A list holds exactly the values of a table, each once. */
  ghost predicate Represents(items: seq<LocalMessage>, entries: Table) {
    && DistinctKeys(items)
    && (forall i :: 0 <= i < |items| ==> Key(items[i]) in entries && entries[Key(items[i])] == items[i])
    && (forall key :: key in entries ==> Key(entries[key]) == key && entries[key] in items)
  }

  /** Every normal form is well formed and lists what was collapsed. */
  lemma NormalFormIsWellFormed(items: seq<LocalMessage>, now: string)
    ensures WellFormed(NormalForm(items, now))
    ensures Represents(NormalForm(items, now), Collapse(items, now).entries)
  {
    var index := Collapse(items, now);
    var values := Values(index);
    var result := NormalForm(items, now);
    SortSorts(values);
    forall i, j | 0 <= i < j < |values| ensures Key(values[i]) != Key(values[j]) {
      assert values[i] == index.entries[index.order[i]] && values[j] == index.entries[index.order[j]];
    }
    forall i | 0 <= i < |result|
      ensures Complete(result[i]) && Key(result[i]) in index.entries && index.entries[Key(result[i])] == result[i]
    {
      assert result[i] in values;
    }
    forall key | key in index.entries ensures index.entries[key] in result {
      var i :| 0 <= i < |index.order| && index.order[i] == key;
      assert values[i] == index.entries[key];
    }
  }

  lemma RepresentsMore(items: seq<LocalMessage>, entries: Table, item: LocalMessage)
    requires Represents(items, entries) && Key(item) !in entries
    ensures Represents(items + [item], entries[Key(item) := item])
  {
    var more := items + [item];
    assert more[|items|] == item;
    forall key | key in entries ensures entries[key] in more {}
  }

  lemma RepresentsReplaced(items: seq<LocalMessage>, entries: Table, position: nat, item: LocalMessage)
    requires Represents(items, entries) && position < |items| && Key(item) == Key(items[position])
    ensures Represents(items[position := item], entries[Key(item) := item])
  {
    var changed := items[position := item];
    assert changed[position] == item;
    forall key | key in entries && key != Key(item) ensures entries[key] in changed {
      var i :| 0 <= i < |items| && items[i] == entries[key];
      assert changed[i] == entries[key];
    }
  }

  lemma RepresentedKey(items: seq<LocalMessage>, entries: Table, key: string)
    requires Represents(items, entries)
    ensures key in entries <==> HasKey(items, key)
  {
    if key in entries {
      var i :| 0 <= i < |items| && items[i] == entries[key];
      assert Key(items[i]) == key;
    }
  }

  lemma RecordingNewRepresents(items: seq<LocalMessage>, entries: Table, last: LocalMessage, now: string)
    requires Represents(items, entries) && Complete(last)
    requires forall i :: 0 <= i < |items| ==> Key(items[i]) != Key(last)
    ensures WithDefaults(last, now) == last && Represents(items + [last], With(entries, last, now))
  {
    RepresentedKey(items, entries, Key(last));
    RepresentsMore(items, entries, last);
  }

  /** Collapsing a list of distinct complete entries changes nothing. */
  lemma {:induction false} CollapseOfDistinct(items: seq<LocalMessage>, now: string)
    requires DistinctKeys(items) && AllComplete(items)
    ensures Represents(items, Collapse(items, now).entries)
  {
    var n := |items|;
    if n > 0 {
      var before, last := items[..n - 1], items[n - 1];
      CollapseOfDistinct(before, now);
      RecordingNewRepresents(before, Collapse(before, now).entries, last, now);
      assert items == before + [last];
      CollapseLast(items, now);
    }
  }

  lemma CollapseLast(items: seq<LocalMessage>, now: string)
    requires items != []
    ensures Collapse(items, now).entries
         == With(Collapse(items[..|items| - 1], now).entries, WithDefaults(items[|items| - 1], now), now)
  {}

  lemma SameTable(items: seq<LocalMessage>, left: Table, right: Table)
    requires Represents(items, left) && Represents(items, right)
    ensures left == right
  {
    forall key | key in left ensures key in right && right[key] == left[key] {
      var i :| 0 <= i < |items| && items[i] == left[key];
    }
    forall key | key in right ensures key in left {
      var i :| 0 <= i < |items| && items[i] == right[key];
    }
  }

  // ---------------------------------------------------------------------
  // A well-formed list is determined by its table
  // ---------------------------------------------------------------------

  ghost predicate DistinctIds(entries: Table) {
    forall k, l :: k in entries && l in entries && k != l ==> entries[k].envelope.id != entries[l].envelope.id
  }

  ghost predicate StrictlyInOrder(items: seq<LocalMessage>) {
    forall i, j :: 0 <= i < j < |items| ==> Compare(items[i], items[j]) < 0
  }

  lemma {:induction false} StrictListsWithEqualElements(left: seq<LocalMessage>, right: seq<LocalMessage>)
    requires StrictlyInOrder(left) && StrictlyInOrder(right)
    requires forall x :: x in left <==> x in right
    ensures left == right
  {
    if left == [] {
      if right != [] {
        HeadIsAnElement(right);
        assert false;
      }
    } else {
      assert left[0] in left;
      assert right != [] && right[0] in right;
      if left[0] != right[0] {
        var i :| 0 <= i < |right| && right[i] == left[0];
        var j :| 0 <= j < |left| && left[j] == right[0];
        CompareIsAntisymmetric(left[0], right[0]);
      }
      NotRepeated(left);
      NotRepeated(right);
      assert left == [left[0]] + left[1..] && right == [right[0]] + right[1..];
      forall x ensures x in left[1..] <==> x in right[1..] {
        assert x in left <==> x == left[0] || x in left[1..];
        assert x in right <==> x == right[0] || x in right[1..];
      }
      StrictListsWithEqualElements(left[1..], right[1..]);
    }
  }

  lemma HeadIsAnElement(items: seq<LocalMessage>)
    requires items != []
    ensures items[0] in items
  {}

  lemma NotRepeated(items: seq<LocalMessage>)
    requires items != [] && StrictlyInOrder(items)
    ensures items[0] !in items[1..]
  {
    CompareIsAntisymmetric(items[0], items[0]);
  }

  lemma ListIsDeterminedByTable(left: seq<LocalMessage>, right: seq<LocalMessage>, entries: Table)
    requires WellFormed(left) && WellFormed(right) && Represents(left, entries) && Represents(right, entries)
    requires DistinctIds(entries)
    ensures left == right
  {
    StrictWhenIdsDiffer(left, entries);
    StrictWhenIdsDiffer(right, entries);
    forall x ensures x in left <==> x in right {
      if x in left { var i :| 0 <= i < |left| && left[i] == x; }
      if x in right { var i :| 0 <= i < |right| && right[i] == x; }
    }
    StrictListsWithEqualElements(left, right);
  }

  lemma StrictWhenIdsDiffer(items: seq<LocalMessage>, entries: Table)
    requires WellFormed(items) && Represents(items, entries) && DistinctIds(entries)
    ensures StrictlyInOrder(items)
  {
    forall i, j | 0 <= i < j < |items| ensures Compare(items[i], items[j]) < 0 {
      CompareIsAntisymmetric(items[i], items[j]);
    }
  }

  // ---------------------------------------------------------------------
  // Incremental equals one-shot
  // ---------------------------------------------------------------------

  /** The id of `message` belongs to no other identity of the list. */
  ghost predicate IdFits(items: seq<LocalMessage>, message: LocalMessage) {
    forall i :: 0 <= i < |items| && items[i].envelope.id == message.envelope.id ==> Key(items[i]) == Key(message)
  }

  /** The upsert of `message` adds an entry or merges into one of its own
      identity, rather than into one that merely has its id. */
  predicate MatchesByIdentity(items: seq<LocalMessage>, message: LocalMessage, now: string) {
    var existing := FindMessageIndex(items, WithDefaults(message, now));
    existing < 0 || Key(items[existing]) == Key(message)
  }

  lemma FittingIdMatchesByIdentity(items: seq<LocalMessage>, message: LocalMessage, now: string)
    requires IdFits(items, message)
    ensures MatchesByIdentity(items, message, now)
  {
    assert WithDefaults(message, now).envelope == message.envelope;
  }

  /** An upsert records the message under its identity and leaves every other
      entry alone. */
  lemma UpsertRecordsUnderItsKey(items: seq<LocalMessage>, entries: Table, message: LocalMessage, now: string)
    requires WellFormed(items) && Represents(items, entries) && MatchesByIdentity(items, message, now)
    ensures WellFormed(Upsert(items, message, now))
    ensures Represents(Upsert(items, message, now), With(entries, WithDefaults(message, now), now))
  {
    var normalized := WithDefaults(message, now);
    var existing := FindMessageIndex(items, normalized);
    RepresentedKey(items, entries, Key(normalized));
    if existing < 0 {
      RepresentsMore(items, entries, normalized);
      NormalFormKeepsTable(items + [normalized], With(entries, normalized, now), now);
    } else {
      var merged := Merge(items[existing], normalized, now);
      RepresentsReplaced(items, entries, existing, merged);
      NormalFormKeepsTable(items[existing := merged], With(entries, normalized, now), now);
    }
  }

  lemma NormalFormKeepsTable(items: seq<LocalMessage>, entries: Table, now: string)
    requires Represents(items, entries) && AllComplete(items)
    ensures WellFormed(NormalForm(items, now)) && Represents(NormalForm(items, now), entries)
  {
    CollapseOfDistinct(items, now);
    SameTable(items, entries, Collapse(items, now).entries);
    NormalFormIsWellFormed(items, now);
  }

  function UpsertAll(stream: seq<LocalMessage>, times: seq<string>): seq<LocalMessage>
    requires |stream| == |times|
  {
    var n := |stream|;
    if n == 0 then [] else Upsert(UpsertAll(stream[..n - 1], times[..n - 1]), stream[n - 1], times[n - 1])
  }

  ghost predicate IdDeterminesKey(stream: seq<LocalMessage>) {
    forall i, j :: 0 <= i < |stream| && 0 <= j < |stream| && stream[i].envelope.id == stream[j].envelope.id
      ==> Key(stream[i]) == Key(stream[j])
  }

  ghost predicate Stamped(stream: seq<LocalMessage>) {
    forall i :: 0 <= i < |stream| ==> stream[i].lastUpdatedAt.Some?
  }

  /** Every entry carries the envelope of one of the messages. */
  lemma {:induction false} EnvelopesComeFromTheStream(stream: seq<LocalMessage>, now: string)
    ensures forall key :: key in Collapse(stream, now).entries ==>
              exists i :: 0 <= i < |stream| && stream[i].envelope == Collapse(stream, now).entries[key].envelope
  {
    var n := |stream|;
    if n > 0 {
      EnvelopesComeFromTheStream(stream[..n - 1], now);
      var before, entries := Collapse(stream[..n - 1], now).entries, Collapse(stream, now).entries;
      forall key | key in entries
        ensures exists i :: 0 <= i < |stream| && stream[i].envelope == entries[key].envelope
      {
        if key == Key(stream[n - 1]) {
          assert stream[n - 1].envelope == entries[key].envelope;
        } else {
          var i :| 0 <= i < n - 1 && stream[..n - 1][i].envelope == before[key].envelope;
          assert stream[i].envelope == entries[key].envelope;
        }
      }
    }
  }

  lemma EntryOrigin(stream: seq<LocalMessage>, now: string, key: string) returns (i: nat)
    requires key in Collapse(stream, now).entries
    ensures i < |stream| && stream[i].envelope == Collapse(stream, now).entries[key].envelope && Key(stream[i]) == key
  {
    EnvelopesComeFromTheStream(stream, now);
    i :| 0 <= i < |stream| && stream[i].envelope == Collapse(stream, now).entries[key].envelope;
  }

  lemma StreamIdsFit(stream: seq<LocalMessage>, now: string)
    requires IdDeterminesKey(stream)
    ensures DistinctIds(Collapse(stream, now).entries)
  {
    var entries := Collapse(stream, now).entries;
    forall k, l | k in entries && l in entries && k != l
      ensures entries[k].envelope.id != entries[l].envelope.id
    {
      var i := EntryOrigin(stream, now, k);
      var j := EntryOrigin(stream, now, l);
    }
  }

  lemma NextMessageFits(stream: seq<LocalMessage>, items: seq<LocalMessage>, now: string)
    requires IdDeterminesKey(stream) && stream != []
    requires Represents(items, Collapse(stream[..|stream| - 1], now).entries)
    ensures IdFits(items, stream[|stream| - 1])
  {
    var before, message := stream[..|stream| - 1], stream[|stream| - 1];
    forall i | 0 <= i < |items| && items[i].envelope.id == message.envelope.id ensures Key(items[i]) == Key(message) {
      var k := EntryOrigin(before, now, Key(items[i]));
      assert stream[k] == before[k];
    }
  }

  lemma {:induction false} UpsertingKeepsTheTable(stream: seq<LocalMessage>, times: seq<string>, now: string)
    requires |stream| == |times| && IdDeterminesKey(stream) && Stamped(stream)
    ensures WellFormed(UpsertAll(stream, times))
    ensures Represents(UpsertAll(stream, times), Collapse(stream, now).entries)
  {
    var n := |stream|;
    if n > 0 {
      var before, message := stream[..n - 1], stream[n - 1];
      var items := UpsertAll(before, times[..n - 1]);
      UpsertingKeepsTheTable(before, times[..n - 1], now);
      NextMessageFits(stream, items, now);
      FittingIdMatchesByIdentity(items, message, times[n - 1]);
      UpsertRecordsUnderItsKey(items, Collapse(before, now).entries, message, times[n - 1]);
      RecordingIgnoresTheTime(Collapse(before, now).entries, message, times[n - 1], now);
      CollapseLast(stream, now);
    }
  }

  /** With its update time given, a message is recorded alike at any time. */
  lemma RecordingIgnoresTheTime(entries: Table, message: LocalMessage, now: string, later: string)
    requires message.lastUpdatedAt.Some?
    ensures With(entries, WithDefaults(message, now), now) == With(entries, WithDefaults(message, later), later)
  {}

  /** Folding single upserts over a stream, each at its own time, gives exactly
      the one-shot normal form of the whole stream. */
  lemma IncrementalEqualsOneShot(stream: seq<LocalMessage>, times: seq<string>, now: string)
    requires |stream| == |times| && IdDeterminesKey(stream) && Stamped(stream)
    ensures UpsertAll(stream, times) == NormalForm(stream, now)
  {
    UpsertingKeepsTheTable(stream, times, now);
    NormalFormIsWellFormed(stream, now);
    StreamIdsFit(stream, now);
    ListIsDeterminedByTable(UpsertAll(stream, times), NormalForm(stream, now), Collapse(stream, now).entries);
  }

  // ---------------------------------------------------------------------
  // Confluence of concurrent feeds
  // ---------------------------------------------------------------------

  /** The messages of one identity, in stream order. */
  function OfKey(stream: seq<LocalMessage>, key: string): seq<LocalMessage> {
    var n := |stream|;
    if n == 0 then []
    else OfKey(stream[..n - 1], key) + (if Key(stream[n - 1]) == key then [stream[n - 1]] else [])
  }

  /** All messages of one identity merged from left to right. */
  function MergeAll(items: seq<LocalMessage>, now: string): LocalMessage
    requires items != []
  {
    var n := |items|;
    var last := WithDefaults(items[n - 1], now);
    if n == 1 then last else Merge(MergeAll(items[..n - 1], now), last, now)
  }

  lemma {:induction false} EntryMergesItsKey(stream: seq<LocalMessage>, key: string, now: string)
    ensures key in Collapse(stream, now).entries <==> OfKey(stream, key) != []
    ensures OfKey(stream, key) != [] ==> Collapse(stream, now).entries[key] == MergeAll(OfKey(stream, key), now)
  {
    var n := |stream|;
    if n > 0 {
      var before, last := stream[..n - 1], stream[n - 1];
      EntryMergesItsKey(before, key, now);
      CollapseLast(stream, now);
      RecordedAt(Collapse(before, now).entries, WithDefaults(last, now), now, key);
      MergeLast(OfKey(before, key), last, now);
      OfKeyLast(stream, key);
    }
  }

  lemma OfKeyLast(stream: seq<LocalMessage>, key: string)
    requires stream != []
    ensures OfKey(stream, key) ==
            if Key(stream[|stream| - 1]) == key then OfKey(stream[..|stream| - 1], key) + [stream[|stream| - 1]]
            else OfKey(stream[..|stream| - 1], key)
  {}

  lemma RecordedAt(entries: Table, item: LocalMessage, now: string, key: string)
    ensures key in With(entries, item, now) <==> key in entries || key == Key(item)
    ensures key != Key(item) && key in entries ==> With(entries, item, now)[key] == entries[key]
    ensures key == Key(item) ==>
      With(entries, item, now)[key] == if key in entries then Merge(entries[key], item, now) else item
  {}

  lemma MergeLast(items: seq<LocalMessage>, last: LocalMessage, now: string)
    ensures Key(WithDefaults(last, now)) == Key(last)
    ensures MergeAll(items + [last], now) ==
            if items == [] then WithDefaults(last, now) else Merge(MergeAll(items, now), WithDefaults(last, now), now)
  {
    assert (items + [last])[..|items|] == items;
  }

  ghost predicate SamePerKeyOrder(left: seq<LocalMessage>, right: seq<LocalMessage>) {
    forall key :: OfKey(left, key) == OfKey(right, key)
  }

  /** Two interleavings that keep the order within every identity end in the
      same list. */
  lemma FeedsAreConfluent(left: seq<LocalMessage>, leftTimes: seq<string>, right: seq<LocalMessage>,
      rightTimes: seq<string>)
    requires |left| == |leftTimes| && |right| == |rightTimes|
    requires IdDeterminesKey(left) && Stamped(left) && IdDeterminesKey(right) && Stamped(right)
    requires SamePerKeyOrder(left, right)
    ensures UpsertAll(left, leftTimes) == UpsertAll(right, rightTimes)
  {
    var l, r := Collapse(left, "").entries, Collapse(right, "").entries;
    forall key ensures key in l <==> key in r
      ensures key in l ==> l[key] == r[key]
    {
      EntryMergesItsKey(left, key, "");
      EntryMergesItsKey(right, key, "");
      assert OfKey(left, key) == OfKey(right, key);
    }
    assert l == r;
    UpsertingKeepsTheTable(left, leftTimes, "");
    UpsertingKeepsTheTable(right, rightTimes, "");
    StreamIdsFit(left, "");
    ListIsDeterminedByTable(UpsertAll(left, leftTimes), UpsertAll(right, rightTimes), l);
  }

  lemma InTable(items: seq<LocalMessage>, entries: Table, x: LocalMessage)
    requires Represents(items, entries)
    ensures x in items <==> Key(x) in entries && entries[Key(x)] == x
  {
    if x in items {
      var i :| 0 <= i < |items| && items[i] == x;
    }
  }
}
