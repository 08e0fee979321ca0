/** The group registry's entries and what one poll cycle does to them
    (index.js:97-140): for each group in turn, fetch, filter, record the new
    keys, save, compose and send, with every failure confined to its group. */
module Registry {
  import opened Wrappers
  import opened Sightings
  import opened Digest

  /** A chat group's serialised identifier. */
  type GroupId = string

  /** A geocoder answer; the values are only copied. */
  datatype Coords = Coords(lat: real, lng: real)

  /** One group's configuration. `seenBirds` is absent until the first poll
      that finds something new. */
  datatype GroupEntry = GroupEntry(
    name: string,
    location: string,
    lat: real,
    lng: real,
    distance: real,
    seenBirds: Option<seq<string>>)

  /** The keys already announced to a group; an absent list reads as empty. */
  function SeenOf(g: GroupEntry): (seen: seq<string>)
    ensures g.seenBirds.None? ==> seen == []
    ensures g.seenBirds.Some? ==> seen == g.seenBirds.value
  {
    g.seenBirds.GetOr([])
  }

  /** The entry `/setlocation` writes: a fresh record with no seen list. */
  function NewEntry(name: string, location: string, c: Coords, distance: real): (e: GroupEntry)
    ensures e.name == name && e.location == location && e.distance == distance
    ensures e.lat == c.lat && e.lng == c.lng
    ensures e.seenBirds.None? && SeenOf(e) == []
  {
    GroupEntry(name, location, c.lat, c.lng, distance, None)
  }

  predicate Distinct<T(==)>(s: seq<T>) {
    forall i, j :: 0 <= i < j < |s| ==> s[i] != s[j]
  }

  /** How the outside world answers for one group during one cycle: the
      sightings fetched (`None` when the request failed), whether writing the
      registry to disk succeeded, and whether the message was delivered. */
  datatype GroupIo = GroupIo(fetched: Option<seq<Sighting>>, saveOk: bool, sendOk: bool)

  /** What a cycle or a command does to the outside world, in order: a write
      of the whole registry with whether it succeeded, or a message sent to a
      group with whether it was delivered. */
  datatype Event =
    | Save(snapshot: map<GroupId, GroupEntry>, ok: bool)
    | Send(to: GroupId, text: string, delivered: bool)

  /** The result of polling one group: its new entry, whether it changed (and
      so a save was attempted), and the message sent, if any. */
  datatype GroupPoll = GroupPoll(entry: GroupEntry, updated: bool, message: Option<string>)

  /** One group's turn in a cycle. A failed fetch, an empty fetch and a fetch
      with nothing new all leave the group alone; otherwise its seen list is
      updated, and the digest is sent only if the save did not fail. */
  function PollGroup(g: GroupEntry, io: GroupIo): (p: GroupPoll)
    ensures p.entry == g.(seenBirds := p.entry.seenBirds)
    ensures p.updated <==> io.fetched.Some? && FilterNew(SeenOf(g), io.fetched.value) != []
    ensures !p.updated ==> p.entry == g && p.message == None
    ensures p.updated ==>
      p.entry.seenBirds == Some(UpdateSeen(SeenOf(g), FilterNew(SeenOf(g), io.fetched.value)))
    ensures p.updated ==> |SeenOf(p.entry)| <= MaxSeen
    ensures p.message.Some? <==> p.updated && io.saveOk
    ensures p.message.Some? ==>
      p.message.value == Compose(g.location, FilterNew(SeenOf(g), io.fetched.value))
  {
    match io.fetched
    case None => GroupPoll(g, false, None)
    case Some(data) =>
      if |data| == 0 then GroupPoll(g, false, None)
      else
        var seenIds := SeenOf(g);
        var newSightings := FilterNew(seenIds, data);
        if |newSightings| == 0 then GroupPoll(g, false, None)
        else
          var entry := g.(seenBirds := Some(UpdateSeen(seenIds, newSightings)));
          GroupPoll(entry, true, if io.saveOk then Some(Compose(g.location, newSightings)) else None)
  }

  /** A group whose location was just set has no seen list, so its next
      successful, non-empty fetch is announced in full: everything fetched is
      new and becomes the seen list (up to `MaxSeen` keys). */
  lemma FreshEntryAnnouncesAll(name: string, location: string, c: Coords, distance: real, io: GroupIo)
    requires io.fetched.Some? && io.fetched.value != []
    ensures var p := PollGroup(NewEntry(name, location, c, distance), io);
            p.updated &&
            p.entry.seenBirds == Some(UpdateSeen([], io.fetched.value)) &&
            (io.saveOk ==> p.message == Some(Compose(location, io.fetched.value)))
  {
    FilterNewNothingSeen(io.fetched.value);
  }

  /** One group's turn applied to the whole registry, with the events it
      causes: nothing, or a save of the updated registry, followed by the
      send when there is a message. */
  function Step(groups: map<GroupId, GroupEntry>, id: GroupId, io: GroupIo): (r: (map<GroupId, GroupEntry>, seq<Event>))
    requires id in groups
    ensures r.0.Keys == groups.Keys
    ensures r.0[id] == PollGroup(groups[id], io).entry
    ensures forall other :: other in groups && other != id ==> r.0[other] == groups[other]
    ensures !PollGroup(groups[id], io).updated ==> r == (groups, [])
  {
    var p := PollGroup(groups[id], io);
    if !p.updated then (groups, [])
    else
      var after := groups[id := p.entry];
      (after, [Save(after, io.saveOk)] + (if p.message.Some? then [Send(id, p.message.value, io.sendOk)] else []))
  }

  /** A whole cycle over the groups `ids`, in that order. */
  function Cycle(groups: map<GroupId, GroupEntry>, ids: seq<GroupId>, ios: map<GroupId, GroupIo>): (r: (map<GroupId, GroupEntry>, seq<Event>))
    requires forall id :: id in ids ==> id in groups && id in ios
    ensures r.0.Keys == groups.Keys
    decreases |ids|
  {
    if ids == [] then (groups, [])
    else
      var before := Cycle(groups, ids[..|ids| - 1], ios);
      var last := ids[|ids| - 1];
      var after := Step(before.0, last, ios[last]);
      (after.0, before.1 + after.1)
  }

  /** A registry together with the events so far. */
  type State = (map<GroupId, GroupEntry>, seq<Event>)

  /** `Step` applied to a state: its events go after the earlier ones. */
  function StepAfter(state: State, id: GroupId, io: GroupIo): State
    requires id in state.0
  {
    var step := Step(state.0, id, io);
    (step.0, state.1 + step.1)
  }

  /** A group whose fetch failed or brought nothing new leaves the state
      as it was. */
  lemma StepAfterIdle(state: State, id: GroupId, io: GroupIo)
    requires id in state.0
    requires io.fetched.None? || FilterNew(SeenOf(state.0[id]), io.fetched.value) == []
    ensures StepAfter(state, id, io) == state
  {
    assert state.1 + [] == state.1;
  }

  /** A group whose fetch brought something new gets its seen list updated
      and the registry saved; the digest follows only when the save
      succeeded. */
  lemma StepAfterNews(state: State, id: GroupId, io: GroupIo)
    requires id in state.0 && io.fetched.Some?
    requires FilterNew(SeenOf(state.0[id]), io.fetched.value) != []
    ensures var g := state.0[id];
            var newSightings := FilterNew(SeenOf(g), io.fetched.value);
            var after := state.0[id := g.(seenBirds := Some(UpdateSeen(SeenOf(g), newSightings)))];
            StepAfter(state, id, io) ==
              if io.saveOk then (after, state.1 + [Save(after, true)] + [Send(id, Compose(g.location, newSightings), io.sendOk)])
              else (after, state.1 + [Save(after, false)])
  {
    var g := state.0[id];
    var newSightings := FilterNew(SeenOf(g), io.fetched.value);
    var after := Step(state.0, id, io).0;
    if io.saveOk {
      var send := Send(id, Compose(g.location, newSightings), io.sendOk);
      assert state.1 + ([Save(after, true)] + [send]) == state.1 + [Save(after, true)] + [send];
    } else {
      assert [Save(after, false)] + [] == [Save(after, false)];
    }
  }

  /** `Cycle` applied to a state. */
  function CycleAfter(state: State, ids: seq<GroupId>, ios: map<GroupId, GroupIo>): (r: State)
    requires forall id :: id in ids ==> id in state.0 && id in ios
    ensures r.0.Keys == state.0.Keys
    ensures ids == [] ==> r == state
  {
    assert state.1 + [] == state.1;
    var cycle := Cycle(state.0, ids, ios);
    (cycle.0, state.1 + cycle.1)
  }

  /** A cycle over one more group is the shorter cycle followed by that
      group's step. */
  lemma CycleAfterSnoc(state: State, ids: seq<GroupId>, id: GroupId, ios: map<GroupId, GroupIo>)
    requires forall i :: i in ids ==> i in state.0 && i in ios
    requires id in state.0 && id in ios
    ensures CycleAfter(state, ids + [id], ios) == StepAfter(CycleAfter(state, ids, ios), id, ios[id])
  {
    assert (ids + [id])[..|ids|] == ids;
    var before := Cycle(state.0, ids, ios);
    var step := Step(before.0, id, ios[id]);
    assert state.1 + (before.1 + step.1) == (state.1 + before.1) + step.1;
  }

  /** Failure isolation: after a cycle, every group's entry is what polling
      that group alone, from its entry before the cycle, with its own
      outcomes, gives; groups outside the cycle are untouched. Whatever
      failed for the other groups makes no difference. */
  lemma {:induction false} CycleEntries(groups: map<GroupId, GroupEntry>, ids: seq<GroupId>, ios: map<GroupId, GroupIo>)
    requires forall id :: id in ids ==> id in groups && id in ios
    requires Distinct(ids)
    ensures forall id :: id in groups ==>
      Cycle(groups, ids, ios).0[id] == if id in ids then PollGroup(groups[id], ios[id]).entry else groups[id]
  {
    if ids != [] {
      var prefix, last := ids[..|ids| - 1], ids[|ids| - 1];
      CycleEntries(groups, prefix, ios);
      assert last !in prefix;
      forall id | id in groups
        ensures Cycle(groups, ids, ios).0[id] == if id in ids then PollGroup(groups[id], ios[id]).entry else groups[id]
      {
        assert id in ids <==> id in prefix || id == last;
      }
    }
  }

  /** A group receives a message in a cycle exactly when polling it alone
      produces one, and then exactly that message, with its own
      delivery outcome. */
  lemma {:induction false} CycleSends(groups: map<GroupId, GroupEntry>, ids: seq<GroupId>, ios: map<GroupId, GroupIo>, id: GroupId, text: string, delivered: bool)
    requires forall id :: id in ids ==> id in groups && id in ios
    requires Distinct(ids)
    ensures Send(id, text, delivered) in Cycle(groups, ids, ios).1 <==>
      id in ids && PollGroup(groups[id], ios[id]).message == Some(text) && delivered == ios[id].sendOk
  {
    if ids != [] {
      var prefix, last := ids[..|ids| - 1], ids[|ids| - 1];
      CycleSends(groups, prefix, ios, id, text, delivered);
      CycleEntries(groups, prefix, ios);
      assert last !in prefix;
      assert id in ids <==> id in prefix || id == last;
      var before := Cycle(groups, prefix, ios);
      assert before.0[last] == groups[last];
    }
  }

  /** Every message in `ev` directly follows a successful save of a registry
      in which the addressee's entry is already what polling it alone gives. */
  predicate SendsFollowSaves(ev: seq<Event>, groups: map<GroupId, GroupEntry>, ios: map<GroupId, GroupIo>) {
    forall k :: 0 <= k < |ev| && ev[k].Send? ==>
      0 < k && ev[k - 1].Save? && ev[k - 1].ok && ev[k].to in groups && ev[k].to in ios && ev[k].to in ev[k - 1].snapshot &&
      ev[k - 1].snapshot[ev[k].to] == PollGroup(groups[ev[k].to], ios[ev[k].to]).entry
  }

  lemma SendsFollowSavesConcat(a: seq<Event>, b: seq<Event>, groups: map<GroupId, GroupEntry>, ios: map<GroupId, GroupIo>)
    requires SendsFollowSaves(a, groups, ios) && SendsFollowSaves(b, groups, ios)
    ensures SendsFollowSaves(a + b, groups, ios)
  {
    forall k | 0 <= k < |a + b| && (a + b)[k].Send?
      ensures 0 < k && (a + b)[k - 1].Save?
    {
      if k >= |a| {
        assert b[k - |a|].Send?;
        assert (a + b)[k - 1] == b[k - |a| - 1];
      }
    }
  }

  /** One step's events: at most a save and then a send to the group polled. */
  lemma StepSendsFollowSaves(before: map<GroupId, GroupEntry>, groups: map<GroupId, GroupEntry>, id: GroupId, ios: map<GroupId, GroupIo>)
    requires id in before && id in groups && id in ios && before[id] == groups[id]
    ensures SendsFollowSaves(Step(before, id, ios[id]).1, groups, ios)
  {
  }

  /** Save before send: every message of a cycle directly follows a
      successful save of the registry in which the addressee's seen list is
      already updated, so a failed delivery still counts the sightings as
      announced. */
  lemma {:induction false} CycleSavesBeforeSending(groups: map<GroupId, GroupEntry>, ids: seq<GroupId>, ios: map<GroupId, GroupIo>)
    requires forall id :: id in ids ==> id in groups && id in ios
    requires Distinct(ids)
    ensures SendsFollowSaves(Cycle(groups, ids, ios).1, groups, ios)
  {
    if ids != [] {
      var prefix, last := ids[..|ids| - 1], ids[|ids| - 1];
      CycleSavesBeforeSending(groups, prefix, ios);
      CycleEntries(groups, prefix, ios);
      assert last !in prefix;
      var before := Cycle(groups, prefix, ios);
      StepSendsFollowSaves(before.0, groups, last, ios);
      SendsFollowSavesConcat(before.1, Step(before.0, last, ios[last]).1, groups, ios);
    }
  }

  /** The registry after a cycle does not depend on whether messages were
      delivered. */
  lemma {:induction false} CycleIgnoresDelivery(groups: map<GroupId, GroupEntry>, ids: seq<GroupId>, ios: map<GroupId, GroupIo>, ios': map<GroupId, GroupIo>)
    requires forall id :: id in ids ==> id in groups && id in ios && id in ios'
    requires forall id :: id in ids ==> ios[id].fetched == ios'[id].fetched && ios[id].saveOk == ios'[id].saveOk
    ensures Cycle(groups, ids, ios).0 == Cycle(groups, ids, ios').0
  {
    if ids != [] {
      CycleIgnoresDelivery(groups, ids[..|ids| - 1], ios, ios');
    }
  }

  /** Every seen list within `MaxSeen` entries stays so through a cycle. */
  lemma {:induction false} CycleKeepsSeenBounded(groups: map<GroupId, GroupEntry>, ids: seq<GroupId>, ios: map<GroupId, GroupIo>)
    requires forall id :: id in ids ==> id in groups && id in ios
    requires forall id :: id in groups ==> |SeenOf(groups[id])| <= MaxSeen
    ensures forall id :: id in groups ==> |SeenOf(Cycle(groups, ids, ios).0[id])| <= MaxSeen
  {
    if ids != [] {
      CycleKeepsSeenBounded(groups, ids[..|ids| - 1], ios);
    }
  }
}
