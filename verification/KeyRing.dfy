// Device key rotation on the desktop client and the window of retired keys it
// keeps for decrypting older messages.
//
// Secure storage maps fixed names to text; an absent value and the empty text
// are treated alike by the code, so both are the empty string here.
module KeyRing {
  import opened Wrappers

  datatype KeyPair = KeyPair(publicKey: string, privateKey: string)

  /** One element of the stored JSON list, whose members may be missing. */
  datatype RawPair = RawPair(publicKey: Option<string>, privateKey: Option<string>)

  /** The stored list: nothing, text that is no JSON list, or a list. */
  datatype Stored = Missing | Corrupt | Listed(items: seq<RawPair>)

  datatype Candidate = Candidate(deviceId: string, deviceName: string, keys: KeyPair)

  datatype Failure = NotInitialized | DeviceIdMismatch

  datatype Identity = Identity(current: KeyPair, deviceId: string, deviceName: string, legacy: Stored)

  const LEGACY_LIMIT := 5

  // ---------------------------------------------------------------------
  // The pure helpers
  // ---------------------------------------------------------------------

  function ParseItems(items: seq<RawPair>): seq<KeyPair> {
    if items == [] then []
    else if items[0].publicKey.Some? && items[0].privateKey.Some? then
      [KeyPair(items[0].publicKey.value, items[0].privateKey.value)] + ParseItems(items[1..])
    else ParseItems(items[1..])
  }

  function ParseLegacy(stored: Stored): seq<KeyPair> {
    if stored.Listed? then ParseItems(stored.items) else []
  }

  function Serialized(keys: seq<KeyPair>): Stored {
    Listed(seq(|keys|, i requires 0 <= i < |keys| => RawPair(Some(keys[i].publicKey), Some(keys[i].privateKey))))
  }

  /** The text under which a pair counts as seen. */
  function Id(keys: KeyPair): string { keys.publicKey + ":" + keys.privateKey }

  function DedupeUnseen(items: seq<KeyPair>, seen: set<string>): seq<KeyPair> {
    if items == [] then []
    else if Id(items[0]) in seen then DedupeUnseen(items[1..], seen)
    else [items[0]] + DedupeUnseen(items[1..], seen + {Id(items[0])})
  }

  function Dedupe(items: seq<KeyPair>): seq<KeyPair> { DedupeUnseen(items, {}) }

  method DedupeLegacy(items: seq<KeyPair>) returns (result: seq<KeyPair>)
    ensures result == Dedupe(items)
  {
    var seen: set<string> := {};
    result := [];
    for i := 0 to |items|
      invariant result + DedupeUnseen(items[i..], seen) == Dedupe(items)
    {
      var item := items[i];
      assert items[i..][1..] == items[i + 1..];
      if Id(item) !in seen {
        seen := seen + {Id(item)};
        result := result + [item];
      }
    }
  }

  // ---------------------------------------------------------------------
  // The stored identity
  // ---------------------------------------------------------------------

  predicate Initialized(identity: Identity) {
    identity.current.publicKey != "" && identity.current.privateKey != ""
  }

  /** The legacy list that a rotation stores. */
  function Retired(identity: Identity): seq<KeyPair> {
    Take(Dedupe([identity.current] + ParseLegacy(identity.legacy)), LEGACY_LIMIT)
  }

  function Commit(identity: Identity, next: Candidate): (Identity, Result<(), Failure>) {
    if !Initialized(identity) || identity.deviceId == "" then (identity, Err(NotInitialized))
    else
      var recorded := identity.(legacy := Serialized(Retired(identity)));
      if next.deviceId != identity.deviceId then (recorded, Err(DeviceIdMismatch))
      else (recorded.(current := next.keys, deviceName := next.deviceName), Ok(()))
  }

  /** The keys tried for decryption, in order. */
  function Candidates(identity: Identity): Result<seq<KeyPair>, Failure> {
    if !Initialized(identity) then Err(NotInitialized)
    else Ok([identity.current] + ParseLegacy(identity.legacy))
  }

  class DeviceIdentityStore {
    var publicKey: string
    var privateKey: string
    var deviceId: string
    var deviceName: string
    var legacy: Stored

    ghost function State(): Identity
      reads this
    {
      Identity(KeyPair(publicKey, privateKey), deviceId, deviceName, legacy)
    }

    constructor (keys: KeyPair, deviceId: string, deviceName: string)
      ensures State() == Identity(keys, deviceId, deviceName, Missing)
    {
      publicKey, privateKey := keys.publicKey, keys.privateKey;
      this.deviceId, this.deviceName, legacy := deviceId, deviceName, Missing;
    }

    method LoadCurrentDeviceKeyMaterial() returns (result: Result<KeyPair, Failure>)
      ensures result == if Initialized(State()) then Ok(State().current) else Err(NotInitialized)
    {
      if publicKey == "" || privateKey == "" {
        return Err(NotInitialized);
      }
      return Ok(KeyPair(publicKey, privateKey));
    }

    method LoadAllDeviceKeyMaterials() returns (result: Result<seq<KeyPair>, Failure>)
      ensures result == Candidates(State())
    {
      var current := LoadCurrentDeviceKeyMaterial();
      if current.Err? {
        return Err(NotInitialized);
      }
      var keys := [current.value];
      if legacy.Listed? {
        var items := legacy.items;
        for i := 0 to |items|
          invariant keys + ParseItems(items[i..]) == [current.value] + ParseItems(items)
        {
          assert items[i..][1..] == items[i + 1..];
          if items[i].publicKey.Some? && items[i].privateKey.Some? {
            keys := keys + [KeyPair(items[i].publicKey.value, items[i].privateKey.value)];
          }
        }
        assert keys == keys + ParseItems(items[|items|..]);
      }
      assert keys == [current.value] + ParseLegacy(legacy);
      return Ok(keys);
    }

    method CommitDeviceIdentityRotation(next: Candidate) returns (result: Result<(), Failure>)
      modifies this
      ensures (State(), result) == Commit(old(State()), next)
    {
      var current := LoadCurrentDeviceKeyMaterial();
      if current.Err? || deviceId == "" {
        return Err(NotInitialized);
      }
      var retired := [current.value] + ParseLegacy(legacy);
      var distinct := DedupeLegacy(retired);
      legacy := Serialized(Take(distinct, LEGACY_LIMIT));
      if next.deviceId != deviceId {
        return Err(DeviceIdMismatch);
      }
      privateKey := next.keys.privateKey;
      publicKey := next.keys.publicKey;
      deviceName := next.deviceName;
      return Ok(());
    }
  }

  // ---------------------------------------------------------------------
  // Removing duplicates
  // ---------------------------------------------------------------------

  ghost function Ids(items: seq<KeyPair>): set<string> {
    if items == [] then {} else {Id(items[0])} + Ids(items[1..])
  }

  lemma {:induction false} IdsAreTheElements(items: seq<KeyPair>, id: string)
    ensures id in Ids(items) <==> exists i :: 0 <= i < |items| && Id(items[i]) == id
  {
    if items != [] {
      IdsAreTheElements(items[1..], id);
      assert forall i :: 0 <= i < |items[1..]| ==> items[1..][i] == items[i + 1];
      if i :| 1 <= i < |items| && Id(items[i]) == id {
        assert items[1..][i - 1] == items[i];
      }
    }
  }

  ghost predicate Distinct(items: seq<KeyPair>) {
    forall i, j :: 0 <= i < j < |items| ==> Id(items[i]) != Id(items[j])
  }

  /** What survives is distinct and covers every unseen identity. */
  lemma {:induction false} DedupeKeepsEachOnce(items: seq<KeyPair>, seen: set<string>)
    ensures Distinct(DedupeUnseen(items, seen))
    ensures Ids(DedupeUnseen(items, seen)) == Ids(items) - seen
  {
    if items != [] {
      var head := Id(items[0]);
      if head in seen {
        DedupeKeepsEachOnce(items[1..], seen);
      } else {
        var rest := DedupeUnseen(items[1..], seen + {head});
        DedupeKeepsEachOnce(items[1..], seen + {head});
        IdsAreTheElements(rest, head);
        assert ([items[0]] + rest)[1..] == rest;
      }
    }
  }

  /** Where each key ends up: the newest occurrence of an identity sits at the
      position given by the number of distinct identities before it. */
  lemma {:induction false} NewestOccurrencePosition(items: seq<KeyPair>, seen: set<string>, i: nat)
    requires i < |items|
    requires Id(items[i]) !in seen + Ids(items[..i])
    ensures |Ids(items[..i]) - seen| < |DedupeUnseen(items, seen)|
    ensures DedupeUnseen(items, seen)[|Ids(items[..i]) - seen|] == items[i]
  {
    var head := Id(items[0]);
    if i == 0 {
      assert Ids(items[..0]) - seen == {};
    } else {
      var before := Ids(items[1..][..i - 1]);
      assert items[..i][1..] == items[1..][..i - 1];
      assert Ids(items[..i]) == {head} + before;
      if head in seen {
        assert Ids(items[..i]) - seen == before - seen;
        NewestOccurrencePosition(items[1..], seen, i - 1);
      } else {
        var later := before - (seen + {head});
        assert Ids(items[..i]) - seen == {head} + later;
        assert |{head} + later| == 1 + |later|;
        NewestOccurrencePosition(items[1..], seen + {head}, i - 1);
      }
    }
  }

  function Without(items: seq<KeyPair>, id: string): seq<KeyPair> {
    if items == [] then []
    else if Id(items[0]) == id then Without(items[1..], id)
    else [items[0]] + Without(items[1..], id)
  }

  lemma {:induction false} SeeingOneMoreRemovesIt(items: seq<KeyPair>, seen: set<string>, id: string)
    ensures DedupeUnseen(items, seen + {id}) == Without(DedupeUnseen(items, seen), id)
  {
    if items != [] {
      var head := Id(items[0]);
      if head in seen {
        SeeingOneMoreRemovesIt(items[1..], seen, id);
      } else {
        var more := seen + {head};
        SeeingOneMoreRemovesIt(items[1..], more, id);
        var rest := DedupeUnseen(items[1..], more);
        assert ([items[0]] + rest)[1..] == rest;
        if head == id {
          assert more + {id} == seen + {id};
          assert more == seen + {id};
        } else {
          assert (seen + {id}) + {head} == more + {id};
        }
      }
    }
  }

  lemma {:induction false} WithoutAbsent(items: seq<KeyPair>, id: string)
    requires forall i :: 0 <= i < |items| ==> Id(items[i]) != id
    ensures Without(items, id) == items
  {
    if items != [] {
      assert forall i :: 0 <= i < |items[1..]| ==> items[1..][i] == items[i + 1];
      WithoutAbsent(items[1..], id);
    }
  }

  /** Cutting a distinct list one element later than needed is enough before
      one identity is removed from it. */
  lemma {:induction false} TruncationIsHarmless(items: seq<KeyPair>, id: string, count: nat)
    requires Distinct(items)
    ensures Take(Without(Take(items, count + 1), id), count) == Take(Without(items, id), count)
  {
    if |items| > count + 1 {
      var cut := items[..count + 1];
      if Id(items[0]) == id {
        assert cut[1..] == items[1..][..count];
        WithoutAbsent(items[1..], id);
        WithoutAbsent(cut[1..], id);
      } else if count > 0 {
        assert cut[1..] == items[1..][..count];
        TruncationIsHarmless(items[1..], id, count - 1);
        assert Without(items, id)[1..] == Without(items[1..], id);
        assert Take(Without(items, id), count) == [items[0]] + Take(Without(items[1..], id), count - 1);
        assert Take(Without(cut, id), count) == [items[0]] + Take(Without(cut[1..], id), count - 1);
      }
    }
  }

  /** Storing only the first five at each step gives the same five as
      computing them from the whole list. */
  lemma TruncatingEachStepLosesNothing(key: KeyPair, history: seq<KeyPair>)
    ensures Take(Dedupe([key] + Take(Dedupe(history), LEGACY_LIMIT)), LEGACY_LIMIT)
         == Take(Dedupe([key] + history), LEGACY_LIMIT)
  {
    var kept := Take(Dedupe(history), LEGACY_LIMIT);
    DedupeKeepsEachOnce(history, {});
    DedupeOfDistinct(kept, {});
    DedupeStartingWith(key, kept);
    DedupeStartingWith(key, history);
    var shortened, full := Without(kept, Id(key)), Without(Dedupe(history), Id(key));
    TruncationIsHarmless(Dedupe(history), Id(key), LEGACY_LIMIT - 1);
    assert Take([key] + shortened, LEGACY_LIMIT) == [key] + Take(shortened, LEGACY_LIMIT - 1);
    assert Take([key] + full, LEGACY_LIMIT) == [key] + Take(full, LEGACY_LIMIT - 1);
  }

  lemma DedupeStartingWith(key: KeyPair, items: seq<KeyPair>)
    ensures Dedupe([key] + items) == [key] + Without(Dedupe(items), Id(key))
  {
    assert ([key] + items)[1..] == items;
    SeeingOneMoreRemovesIt(items, {}, Id(key));
  }

  lemma {:induction false} DedupeOfDistinct(items: seq<KeyPair>, seen: set<string>)
    requires Distinct(items)
    requires forall i :: 0 <= i < |items| ==> Id(items[i]) !in seen
    ensures DedupeUnseen(items, seen) == items
  {
    if items != [] {
      assert forall i :: 0 <= i < |items[1..]| ==> items[1..][i] == items[i + 1];
      DedupeOfDistinct(items[1..], seen + {Id(items[0])});
    }
  }

  lemma {:induction false} ParsingUndoesSerializing(keys: seq<KeyPair>)
    ensures ParseLegacy(Serialized(keys)) == keys
  {
    if keys != [] {
      ParsingUndoesSerializing(keys[1..]);
      assert Serialized(keys).items[1..] == Serialized(keys[1..]).items;
    }
  }

  // ---------------------------------------------------------------------
  // Whole runs of rotations
  // ---------------------------------------------------------------------

  function CommitAll(identity: Identity, nexts: seq<Candidate>): Identity
    decreases nexts
  {
    if nexts == [] then identity else CommitAll(Commit(identity, nexts[0]).0, nexts[1..])
  }

  /** The keys retired by a run, newest first, before those in `older`. */
  function History(current: KeyPair, nexts: seq<Candidate>, older: seq<KeyPair>): seq<KeyPair>
    decreases nexts
  {
    if nexts == [] then older else History(nexts[0].keys, nexts[1..], [current] + older)
  }

  ghost predicate Rotatable(next: Candidate, deviceId: string) {
    next.deviceId == deviceId && next.keys.publicKey != "" && next.keys.privateKey != ""
  }

  lemma {:induction false} LegacyFollowsHistory(identity: Identity, nexts: seq<Candidate>, older: seq<KeyPair>)
    requires Initialized(identity) && identity.deviceId != ""
    requires forall i :: 0 <= i < |nexts| ==> Rotatable(nexts[i], identity.deviceId)
    requires ParseLegacy(identity.legacy) == Take(Dedupe(older), LEGACY_LIMIT)
    ensures
      var final := CommitAll(identity, nexts);
      && ParseLegacy(final.legacy) == Take(Dedupe(History(identity.current, nexts, older)), LEGACY_LIMIT)
      && Initialized(final)
      && final.current == if nexts == [] then identity.current else nexts[|nexts| - 1].keys
    decreases nexts
  {
    if nexts != [] {
      assert Rotatable(nexts[0], identity.deviceId);
      var (next, _) := Commit(identity, nexts[0]);
      ParsingUndoesSerializing(Retired(identity));
      TruncatingEachStepLosesNothing(identity.current, older);
      LegacyFollowsHistory(next, nexts[1..], [identity.current] + older);
    }
  }

  /** After any run of successful rotations the stored list is the five most
      recently retired distinct pairs, newest first, and decryption tries the
      current pair and then exactly that list. */
  lemma LegacyIsTheRecentWindow(keys: KeyPair, deviceId: string, deviceName: string, nexts: seq<Candidate>)
    requires keys.publicKey != "" && keys.privateKey != "" && deviceId != ""
    requires forall i :: 0 <= i < |nexts| ==> Rotatable(nexts[i], deviceId)
    ensures
      var final := CommitAll(Identity(keys, deviceId, deviceName, Missing), nexts);
      var window := Take(Dedupe(History(keys, nexts, [])), LEGACY_LIMIT);
      && ParseLegacy(final.legacy) == window
      && Candidates(final) == Ok([if nexts == [] then keys else nexts[|nexts| - 1].keys] + window)
  {
    LegacyFollowsHistory(Identity(keys, deviceId, deviceName, Missing), nexts, []);
  }

  /** Which retired pairs are in the window: the newest occurrence of an
      identity is kept, at the position given by the number of distinct
      identities retired after it, exactly when fewer than five were. */
  lemma WindowMembership(history: seq<KeyPair>, i: nat)
    requires i < |history| && Id(history[i]) !in Ids(history[..i])
    ensures
      var window := Take(Dedupe(history), LEGACY_LIMIT);
      var newer := |Ids(history[..i])|;
      && (newer < LEGACY_LIMIT ==> newer < |window| && window[newer] == history[i])
      && (Id(history[i]) in Ids(window) <==> newer < LEGACY_LIMIT)
  {
    assert Ids(history[..i]) - {} == Ids(history[..i]);
    NewestOccurrencePosition(history, {}, i);
    DedupeKeepsEachOnce(history, {});
    var all := Dedupe(history);
    var window := Take(all, LEGACY_LIMIT);
    var newer := |Ids(history[..i])|;
    assert all[newer] == history[i];
    IdsAreTheElements(window, Id(history[i]));
    if newer < LEGACY_LIMIT {
      assert window[newer] == history[i];
    } else {
      forall k | 0 <= k < |window| ensures Id(window[k]) != Id(history[i]) {
        assert window[k] == all[k] && k < newer;
      }
    }
  }

  lemma FirstColon(keys: KeyPair, position: nat)
    requires ':' !in keys.publicKey
    requires position < |Id(keys)| && Id(keys)[position] == ':'
    ensures |keys.publicKey| <= position
  {
    assert forall k :: 0 <= k < |keys.publicKey| ==>
      Id(keys)[k] == keys.publicKey[k] && keys.publicKey[k] in keys.publicKey;
  }

  /** Two pairs whose public part holds no colon share an identity only when
      they are the same pair. */
  lemma IdentityTellsPairsApart(left: KeyPair, right: KeyPair)
    requires ':' !in left.publicKey && ':' !in right.publicKey
    requires Id(left) == Id(right)
    ensures left == right
  {
    var n, m := |left.publicKey|, |right.publicKey|;
    assert Id(left)[n] == ':' && Id(right)[m] == ':';
    FirstColon(left, m);
    FirstColon(right, n);
    assert left.publicKey == Id(left)[..n] && right.publicKey == Id(right)[..n];
    assert left.privateKey == Id(left)[n + 1..] && right.privateKey == Id(right)[n + 1..];
  }

  lemma {:induction false} IdsWithout(items: seq<KeyPair>, id: string)
    requires Distinct(items)
    ensures |Without(items, id)| == if id in Ids(items) then |items| - 1 else |items|
  {
    if items != [] {
      IdsAreTheElements(items[1..], Id(items[0]));
      assert forall i :: 0 <= i < |items[1..]| ==> items[1..][i] == items[i + 1];
      IdsWithout(items[1..], id);
    }
  }

  lemma CutListLosesItsLast(items: seq<KeyPair>, count: nat)
    requires Distinct(items) && count < |items|
    ensures Id(items[count]) in Ids(items) && Id(items[count]) !in Ids(items[..count])
  {
    IdsAreTheElements(items, Id(items[count]));
    IdsAreTheElements(items[..count], Id(items[count]));
  }

  /** A rotation refused for a wrong device id keeps the current pair but has
      already recorded it as retired. No decryption key is lost exactly when
      the list had room for it or held it already. */
  lemma RefusedRotationKeepsEveryKey(identity: Identity, next: Candidate)
    requires Initialized(identity) && identity.deviceId != "" && next.deviceId != identity.deviceId
    requires Distinct(ParseLegacy(identity.legacy)) && |ParseLegacy(identity.legacy)| <= LEGACY_LIMIT
    ensures
      var (after, result) := Commit(identity, next);
      var before := ParseLegacy(identity.legacy);
      && result == Err(DeviceIdMismatch)
      && after.current == identity.current
      && (Ids(before) <= Ids([after.current] + ParseLegacy(after.legacy))
          <==> |before| < LEGACY_LIMIT || Id(identity.current) in Ids(before))
  {
    var before := ParseLegacy(identity.legacy);
    var current := identity.current;
    var all := Dedupe([current] + before);
    var kept := Take(all, LEGACY_LIMIT);
    ParsingUndoesSerializing(kept);
    DedupeKeepsEachOnce([current] + before, {});
    assert ([current] + before)[1..] == before && ([current] + kept)[1..] == kept;
    assert Ids(all) == {Id(current)} + Ids(before);
    DedupeStartingWith(current, before);
    DedupeOfDistinct(before, {});
    IdsWithout(before, Id(current));
    if |all| > LEGACY_LIMIT {
      CutListLosesItsLast(all, LEGACY_LIMIT);
      assert Id(all[0]) != Id(all[LEGACY_LIMIT]);
    }
  }

  /** Where each key of a run stands in its history: the newest first. */
  lemma {:induction false} HistoryAt(current: KeyPair, nexts: seq<Candidate>, older: seq<KeyPair>, i: nat)
    requires i < |nexts| + |older|
    ensures |History(current, nexts, older)| == |nexts| + |older|
    ensures History(current, nexts, older)[i] ==
            if i >= |nexts| then older[i - |nexts|]
            else if i == |nexts| - 1 then current else nexts[|nexts| - 2 - i].keys
    decreases nexts
  {
    if nexts != [] {
      HistoryAt(nexts[0].keys, nexts[1..], [current] + older, i);
    }
  }

  /** That happens after any five rotations to new keys: the list is full of
      others, and a sixth that is refused loses the oldest of them. */
  lemma {:induction false} RefusedRotationDropsTheOldest(
    keys: seq<KeyPair>, deviceId: string, deviceName: string, nexts: seq<Candidate>, next: Candidate)
    requires |keys| == 6 && Distinct(keys) && deviceId != "" && next.deviceId != deviceId
    requires forall i :: 0 <= i < 6 ==> keys[i].publicKey != "" && keys[i].privateKey != ""
    requires |nexts| == 5 && forall i :: 0 <= i < 5 ==> nexts[i] == Candidate(deviceId, deviceName, keys[i + 1])
    ensures
      var identity := CommitAll(Identity(keys[0], deviceId, deviceName, Missing), nexts);
      var (after, result) := Commit(identity, next);
      && result == Err(DeviceIdMismatch)
      && keys[0] in ParseLegacy(identity.legacy)
      && Id(keys[0]) !in Ids([after.current] + ParseLegacy(after.legacy))
  {
    var identity := CommitAll(Identity(keys[0], deviceId, deviceName, Missing), nexts);
    AfterFiveRotations(keys, deviceId, deviceName, nexts);
    FullListLosesItsLast(identity, next);
  }

  /** A refused rotation on a full list of other keys loses the oldest. */
  lemma {:induction false} FullListLosesItsLast(identity: Identity, next: Candidate)
    requires Initialized(identity) && identity.deviceId != "" && next.deviceId != identity.deviceId
    requires |ParseLegacy(identity.legacy)| == LEGACY_LIMIT
    requires Distinct([identity.current] + ParseLegacy(identity.legacy))
    ensures
      var (after, result) := Commit(identity, next);
      && result == Err(DeviceIdMismatch)
      && Id(ParseLegacy(identity.legacy)[4]) !in Ids([after.current] + ParseLegacy(after.legacy))
  {
    var all := [identity.current] + ParseLegacy(identity.legacy);
    var kept := [identity.current] + all[..5];
    DedupeOfDistinct(all, {});
    ParsingUndoesSerializing(all[..5]);
    IdsAreTheElements(kept, Id(all[5]));
    forall k | 0 <= k < 6 ensures Id(kept[k]) != Id(all[5]) {
      assert kept[k] == all[if k == 0 then 0 else k - 1];
    }
  }

  /** The list then holds the five retired keys, newest first. */
  lemma {:induction false} AfterFiveRotations(
    keys: seq<KeyPair>, deviceId: string, deviceName: string, nexts: seq<Candidate>)
    requires |keys| == 6 && Distinct(keys) && deviceId != ""
    requires forall i :: 0 <= i < 6 ==> keys[i].publicKey != "" && keys[i].privateKey != ""
    requires |nexts| == 5 && forall i :: 0 <= i < 5 ==> nexts[i] == Candidate(deviceId, deviceName, keys[i + 1])
    ensures
      var identity := CommitAll(Identity(keys[0], deviceId, deviceName, Missing), nexts);
      var list := ParseLegacy(identity.legacy);
      && Initialized(identity) && identity.deviceId == deviceId && identity.current == keys[5]
      && |list| == 5 && list[4] == keys[0] && Distinct([keys[5]] + list)
  {
    var start := Identity(keys[0], deviceId, deviceName, Missing);
    LegacyFollowsHistory(start, nexts, []);
    RotationsKeepTheDevice(start, nexts);
    var history := History(keys[0], nexts, []);
    forall i | 0 <= i < 5 ensures |history| == 5 && history[i] == keys[4 - i] {
      HistoryAt(keys[0], nexts, [], i);
    }
    DedupeOfDistinct(history, {});
    assert forall i :: 0 <= i < 6 ==> ([keys[5]] + history)[i] == keys[5 - i];
  }

  lemma {:induction false} RotationsKeepTheDevice(identity: Identity, nexts: seq<Candidate>)
    ensures CommitAll(identity, nexts).deviceId == identity.deviceId
    decreases nexts
  {
    if nexts != [] {
      RotationsKeepTheDevice(Commit(identity, nexts[0]).0, nexts[1..]);
    }
  }

  /** Reading a stored list keeps exactly its complete elements, and
      text that is no list counts as an empty one. */
  lemma {:induction false} ParsedAreComplete(items: seq<RawPair>, keys: KeyPair)
    ensures keys in ParseLegacy(Listed(items)) <==>
            RawPair(Some(keys.publicKey), Some(keys.privateKey)) in items
    ensures ParseLegacy(Missing) == [] && ParseLegacy(Corrupt) == []
  {
    if items != [] {
      ParsedAreComplete(items[1..], keys);
      assert items == [items[0]] + items[1..];
      CompleteIsItself(items[0], keys);
    }
  }

  lemma CompleteIsItself(item: RawPair, keys: KeyPair)
    ensures item == RawPair(Some(keys.publicKey), Some(keys.privateKey)) <==>
            item.publicKey.Some? && item.privateKey.Some?
              && KeyPair(item.publicKey.value, item.privateKey.value) == keys
  {}

  /** A rotation succeeds exactly on an identity with both halves of its key and
      an id, for that id; then the new key and name are current. Any other leaves
      the current key, the id and the name. */
  lemma WhenARotationSucceeds(identity: Identity, next: Candidate)
    ensures
      var (after, result) := Commit(identity, next);
      && (result.Ok? <==>
          identity.current.publicKey != "" && identity.current.privateKey != "" && identity.deviceId != ""
          && next.deviceId == identity.deviceId)
      && after.deviceId == identity.deviceId
      && (result.Ok? ==> after.current == next.keys && after.deviceName == next.deviceName)
      && (result.Err? ==> after.current == identity.current && after.deviceName == identity.deviceName)
      && (result == Err(NotInitialized) ==> after == identity)
      && (result == Err(NotInitialized) <==>
          identity.current.publicKey == "" || identity.current.privateKey == "" || identity.deviceId == "")
  {}

  /** Without a current key there is nothing to decrypt with. */
  lemma NoKeyNoCandidates(identity: Identity)
    ensures Candidates(identity).Ok? <==> identity.current.publicKey != "" && identity.current.privateKey != ""
    ensures Candidates(identity).Err? ==> Candidates(identity) == Err(NotInitialized)
  {}
}
