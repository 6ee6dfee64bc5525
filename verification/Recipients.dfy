// The recipient list the client builds and what the server makes of it.
module Recipients {
  import opened Wrappers
  import opened Relay

  // ---------------------------------------------------------------------
  // The client
  // ---------------------------------------------------------------------

  function AddTrusted(devices: seq<Device>, found: seq<string>): seq<string> {
    if devices == [] then found
    else
      AddTrusted(devices[1..], if devices[0].trusted && devices[0].id !in found then found + [devices[0].id] else found)
  }

  function AddActive(members: seq<Member>, found: seq<string>): seq<string> {
    if members == [] then found
    else AddActive(members[1..], if members[0].isActive then AddTrusted(members[0].trustedDevices, found) else found)
  }

  function Resolved(members: seq<Member>): seq<string> { AddActive(members, []) }

  method ResolveRecipients(members: seq<Member>) returns (recipients: seq<string>)
    ensures recipients == Resolved(members)
  {
    recipients := [];
    var seen: set<string> := {};
    for i := 0 to |members|
      invariant seen == set id | id in recipients
      invariant AddActive(members[i..], recipients) == Resolved(members)
    {
      assert members[i..][1..] == members[i + 1..];
      if members[i].isActive {
        var devices := members[i].trustedDevices;
        ghost var before := recipients;
        for k := 0 to |devices|
          invariant seen == set id | id in recipients
          invariant AddTrusted(devices[k..], recipients) == AddTrusted(devices, before)
        {
          assert devices[k..][1..] == devices[k + 1..];
          if devices[k].trusted && devices[k].id !in seen {
            seen := seen + {devices[k].id};
            recipients := recipients + [devices[k].id];
          }
        }
      }
    }
  }

  /** Each resolved device with the key wrapped for it. */
  function Wrapped(devices: seq<string>, keys: seq<string>): (inputs: seq<RecipientInput>)
    requires |keys| == |devices|
    ensures |inputs| == |devices| && forall i :: 0 <= i < |inputs| ==>
            inputs[i] == RecipientInput(devices[i], keys[i], true)
  {
    seq(|devices|, i requires 0 <= i < |devices| => RecipientInput(devices[i], keys[i], true))
  }

  // ---------------------------------------------------------------------
  // Who qualifies
  // ---------------------------------------------------------------------

  ghost predicate Lists(member: Member, id: string, trustedOnly: bool) {
    exists k :: 0 <= k < |member.trustedDevices| && member.trustedDevices[k].id == id
                && (trustedOnly ==> member.trustedDevices[k].trusted)
  }

  /** Some active member owns a trusted device of that id. */
  ghost predicate Qualifies(members: seq<Member>, id: string) {
    exists i :: 0 <= i < |members| && members[i].isActive && Lists(members[i], id, true)
  }

  ghost predicate NoRepeats(items: seq<string>) {
    forall i, j :: 0 <= i < j < |items| ==> items[i] != items[j]
  }

  lemma ListsTail(member: Member, id: string, trustedOnly: bool)
    requires member.trustedDevices != []
    ensures Lists(member, id, trustedOnly) <==>
            (member.trustedDevices[0].id == id && (trustedOnly ==> member.trustedDevices[0].trusted))
            || Lists(member.(trustedDevices := member.trustedDevices[1..]), id, trustedOnly)
  {
    var devices := member.trustedDevices;
    var tail := member.(trustedDevices := devices[1..]);
    if k :| 1 <= k < |devices| && devices[k].id == id && (trustedOnly ==> devices[k].trusted) {
      assert tail.trustedDevices[k - 1] == devices[k];
    }
    if Lists(tail, id, trustedOnly) {
      var k :| 0 <= k < |devices| - 1 && tail.trustedDevices[k].id == id
        && (trustedOnly ==> tail.trustedDevices[k].trusted);
      assert devices[k + 1] == tail.trustedDevices[k];
    }
  }

  lemma {:induction false} AddTrustedAdds(member: Member, found: seq<string>, id: string)
    ensures id in AddTrusted(member.trustedDevices, found) <==> id in found || Lists(member, id, true)
    ensures NoRepeats(found) ==> NoRepeats(AddTrusted(member.trustedDevices, found))
    decreases |member.trustedDevices|
  {
    var devices := member.trustedDevices;
    if devices != [] {
      ListsTail(member, id, true);
      var next := if devices[0].trusted && devices[0].id !in found then found + [devices[0].id] else found;
      AddTrustedAdds(member.(trustedDevices := devices[1..]), next, id);
    }
  }

  lemma {:induction false} AddActiveAdds(members: seq<Member>, found: seq<string>, id: string)
    ensures id in AddActive(members, found) <==> id in found || Qualifies(members, id)
    ensures NoRepeats(found) ==> NoRepeats(AddActive(members, found))
    decreases members
  {
    if members != [] {
      var next := if members[0].isActive then AddTrusted(members[0].trustedDevices, found) else found;
      if members[0].isActive { AddTrustedAdds(members[0], found, id); }
      AddActiveAdds(members[1..], next, id);
      if i :| 1 <= i < |members| && members[i].isActive && Lists(members[i], id, true) {
        assert members[1..][i - 1] == members[i];
      }
      if Qualifies(members[1..], id) {
        var i :| 0 <= i < |members| - 1 && members[1..][i].isActive && Lists(members[1..][i], id, true);
        assert members[i + 1] == members[1..][i];
      }
    }
  }

  /** The client lists each trusted device of each active member once. */
  lemma ResolvedListsEachQualifyingDeviceOnce(members: seq<Member>)
    ensures NoRepeats(Resolved(members))
    ensures forall id :: id in Resolved(members) <==> Qualifies(members, id)
  {
    forall id ensures id in Resolved(members) <==> Qualifies(members, id) {
      AddActiveAdds(members, [], id);
    }
    AddActiveAdds(members, [], "");
  }

  // ---------------------------------------------------------------------
  // The server's view of the same list
  // ---------------------------------------------------------------------

  lemma {:induction false} AllowedFromDevices(member: Member, allowed: map<string, string>, id: string)
    ensures id in AddDevices(member.trustedDevices, allowed) <==> id in allowed || Lists(member, id, false)
    decreases |member.trustedDevices|
  {
    var devices := member.trustedDevices;
    if devices != [] {
      ListsTail(member, id, false);
      AllowedFromDevices(member.(trustedDevices := devices[1..]), allowed[devices[0].id := devices[0].accountId], id);
    }
  }

  lemma TrustedIsListed(member: Member, id: string)
    requires Lists(member, id, true)
    ensures Lists(member, id, false)
  {
    var k :| 0 <= k < |member.trustedDevices| && member.trustedDevices[k].id == id && member.trustedDevices[k].trusted;
  }

  lemma {:induction false} AllowedFromMembers(members: seq<Member>, allowed: map<string, string>, id: string)
    requires id in allowed || Qualifies(members, id)
    ensures id in AddMembers(members, allowed)
    decreases members
  {
    if members != [] {
      var next := if members[0].isActive then AddDevices(members[0].trustedDevices, allowed) else allowed;
      if members[0].isActive {
        AllowedFromDevices(members[0], allowed, id);
      }
      if id !in allowed {
        var i :| 0 <= i < |members| && members[i].isActive && Lists(members[i], id, true);
        TrustedIsListed(members[i], id);
        if i > 0 {
          assert members[1..][i - 1] == members[i];
        }
      }
      AllowedFromMembers(members[1..], next, id);
    }
  }

  /** Every device of the snapshot belongs to one account only. */
  ghost predicate OwnedBy(members: seq<Member>, owner: map<string, string>) {
    forall i, k :: 0 <= i < |members| && 0 <= k < |members[i].trustedDevices| ==>
                     var device := members[i].trustedDevices[k];
                     device.id in owner && owner[device.id] == device.accountId
  }

  lemma {:induction false} DevicesKeepOwners(devices: seq<Device>, allowed: map<string, string>,
      owner: map<string, string>)
    requires forall k :: 0 <= k < |devices| ==> devices[k].id in owner && owner[devices[k].id] == devices[k].accountId
    requires forall id :: id in allowed ==> id in owner && owner[id] == allowed[id]
    ensures forall id :: id in AddDevices(devices, allowed) ==>
            id in owner && owner[id] == AddDevices(devices, allowed)[id]
    decreases devices
  {
    if devices != [] {
      assert forall k :: 0 <= k < |devices[1..]| ==> devices[1..][k] == devices[k + 1];
      DevicesKeepOwners(devices[1..], allowed[devices[0].id := devices[0].accountId], owner);
    }
  }

  lemma {:induction false} MembersKeepOwners(members: seq<Member>, allowed: map<string, string>,
      owner: map<string, string>)
    requires OwnedBy(members, owner)
    requires forall id :: id in allowed ==> id in owner && owner[id] == allowed[id]
    ensures forall id :: id in AddMembers(members, allowed) ==>
            id in owner && owner[id] == AddMembers(members, allowed)[id]
    decreases members
  {
    if members != [] {
      assert forall i :: 0 <= i < |members[1..]| ==> members[1..][i] == members[i + 1];
      if members[0].isActive {
        DevicesKeepOwners(members[0].trustedDevices, allowed, owner);
        MembersKeepOwners(members[1..], AddDevices(members[0].trustedDevices, allowed), owner);
      } else {
        MembersKeepOwners(members[1..], allowed, owner);
      }
    }
  }

  ghost predicate Clean(id: string) { id != "" && Trim(id) == id }

  lemma {:induction false} AllowedInputsAreRecorded(
    inputs: seq<RecipientInput>, allowed: map<string, string>, rows: map<string, Row>)
    requires forall i :: 0 <= i < |inputs| ==>
                           Clean(inputs[i].deviceId) && inputs[i].deviceId in allowed && inputs[i].keyValid
    requires forall id :: id in rows ==> id in allowed && rows[id].accountId == allowed[id]
    ensures
      var result := AddRecipients(inputs, allowed, rows);
      && result.Ok?
      && (forall id :: id in result.value <==> id in rows || exists i :: 0 <= i < |inputs| && inputs[i].deviceId == id)
      && (forall id :: id in result.value ==> id in allowed && result.value[id].accountId == allowed[id])
    decreases inputs
  {
    if inputs != [] {
      var device := inputs[0].deviceId;
      var next := if device in rows then rows else rows[device := Row(allowed[device], inputs[0].wrappedKey)];
      assert forall i :: 0 <= i < |inputs[1..]| ==> inputs[1..][i] == inputs[i + 1];
      AllowedInputsAreRecorded(inputs[1..], allowed, next);
      var result := AddRecipients(inputs[1..], allowed, next).value;
      forall id ensures id in result <==> id in rows || exists i :: 0 <= i < |inputs| && inputs[i].deviceId == id {
        if i :| 1 <= i < |inputs| && inputs[i].deviceId == id {
          assert inputs[1..][i - 1].deviceId == id;
        }
        if i :| 0 <= i < |inputs[1..]| && inputs[1..][i].deviceId == id {
          assert inputs[i + 1].deviceId == id;
        }
      }
    }
  }

  // ---------------------------------------------------------------------
  // Agreement
  // ---------------------------------------------------------------------

  /** A new, otherwise valid request whose recipients the client resolved. */
  ghost predicate ClientRequest(state: State, input: SendInput, conversation: Conversation, keys: seq<string>) {
    && |keys| == |Resolved(conversation.members)|
    && input.recipients == Wrapped(Resolved(conversation.members), keys)
    && input.contentValid && Trim(input.clientMessageId) != ""
    && TimeToLive(input.ttlSeconds, conversation).Ok?
    && FindSent(state.messages, input.deviceId, input.clientMessageId) < 0
    && (forall i, k :: 0 <= i < |conversation.members| && 0 <= k < |conversation.members[i].trustedDevices| ==>
                         Clean(conversation.members[i].trustedDevices[k].id))
  }

  lemma QualifyingIsClean(members: seq<Member>, id: string)
    requires forall i, k :: 0 <= i < |members| && 0 <= k < |members[i].trustedDevices| ==>
             Clean(members[i].trustedDevices[k].id)
    requires Qualifies(members, id)
    ensures Clean(id)
  {
    var i :| 0 <= i < |members| && members[i].isActive && Lists(members[i], id, true);
    var k :| 0 <= k < |members[i].trustedDevices| && members[i].trustedDevices[k].id == id;
  }

  lemma ResolvedRows(members: seq<Member>, keys: seq<string>)
    requires |keys| == |Resolved(members)|
    requires forall i, k :: 0 <= i < |members| && 0 <= k < |members[i].trustedDevices| ==>
             Clean(members[i].trustedDevices[k].id)
    ensures
      var rows := AddRecipients(Wrapped(Resolved(members), keys), AllowedDevices(members), map[]);
      && rows.Ok?
      && (forall id :: id in rows.value <==> Qualifies(members, id))
      && (forall id :: id in rows.value ==>
            id in AllowedDevices(members) && rows.value[id].accountId == AllowedDevices(members)[id])
  {
    var devices, inputs := Resolved(members), Wrapped(Resolved(members), keys);
    ResolvedListsEachQualifyingDeviceOnce(members);
    forall i | 0 <= i < |inputs| ensures Clean(inputs[i].deviceId) && inputs[i].deviceId in AllowedDevices(members) {
      assert devices[i] in devices;
      QualifyingIsClean(members, devices[i]);
      AllowedFromMembers(members, map[], devices[i]);
    }
    AllowedInputsAreRecorded(inputs, AllowedDevices(members), map[]);
    forall id ensures id in devices <==> exists i :: 0 <= i < |inputs| && inputs[i].deviceId == id {
      if id in devices {
        var i :| 0 <= i < |devices| && devices[i] == id;
        assert inputs[i].deviceId == id;
      }
    }
  }

  /** On one snapshot the server accepts what the client resolved exactly when
      the sender's account is an active member, the sender's device qualifies
      and at most 256 devices do. The rows are then one per qualifying device,
      under its owner, and only the sender's is marked delivered. */
  lemma ClientAndServerAgree(state: State, input: SendInput, conversation: Conversation, keys: seq<string>,
                             owner: map<string, string>, now: int, freshId: string)
    requires ClientRequest(state, input, conversation, keys)
    requires OwnedBy(conversation.members, owner)
    ensures
      var (next, sent) := Send(state, input, Some(conversation), now, freshId);
      && (sent.result.Ok? <==>
          HasActiveMember(conversation.members, input.accountId)
          && Qualifies(conversation.members, input.deviceId)
          && |Resolved(conversation.members)| <= MAX_MESSAGE_RECIPIENTS)
      && (sent.result.Ok? ==>
            var rows := sent.result.value.recipients;
            && next.messages == state.messages + [sent.result.value]
            && (forall id :: id in rows <==> Qualifies(conversation.members, id))
            && (forall id :: id in rows ==> id in owner && rows[id].accountId == owner[id])
            && next.delivered == state.delivered + {(freshId, input.deviceId)})
  {
    ResolvedListsEachQualifyingDeviceOnce(conversation.members);
    ResolvedRows(conversation.members, keys);
    MembersKeepOwners(conversation.members, map[], owner);
    if Qualifies(conversation.members, input.deviceId) {
      assert input.deviceId in Resolved(conversation.members);
    }
  }
}
