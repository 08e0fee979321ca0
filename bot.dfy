/** The running bot (index.js:14-23, 33-70, 97-140): the registry of groups
    held in memory, the chat commands that change or read it, and the poll
    cycle that walks it. Everything the bot does to the outside world is
    appended to `log`. */
module Bot {
  import opened Wrappers
  import opened Sightings
  import opened Digest
  import opened Commands
  import opened Registry

  /** How the bot answered a chat message. */
  datatype Handled =
    | Ignored
    | NotFound(place: string)
    | LocationSet(place: string)
    | Status(entry: Option<GroupEntry>)

  class AlertBot {
    /** The registry, keyed by group id. */
    var groups: map<GroupId, GroupEntry>
    /** The order in which the registry's keys were first inserted, which is
        the order a poll cycle visits the groups in. */
    var order: seq<GroupId>
    /** Saves and sends so far. */
    var log: seq<Event>
    /** The search radius, in kilometres, given to every group that sets a
        location. */
    const defaultDistance: real

    ghost predicate Valid()
      reads this
    {
      Distinct(order) && forall id :: id in order <==> id in groups
    }

    /** Start with the stored registry, or an empty one when there is no
        storage file. */
    constructor (stored: Option<(map<GroupId, GroupEntry>, seq<GroupId>)>, defaultDistance: real)
      requires stored.Some? ==>
        Distinct(stored.value.1) && forall id :: id in stored.value.1 <==> id in stored.value.0
      ensures Valid() && log == [] && this.defaultDistance == defaultDistance
      ensures stored.None? ==> groups == map[] && order == []
      ensures stored.Some? ==> groups == stored.value.0 && order == stored.value.1
    {
      if stored.None? {
        groups, order := map[], [];
      } else {
        groups, order := stored.value.0, stored.value.1;
      }
      log := [];
      this.defaultDistance := defaultDistance;
    }

    /** `/setlocation`: without coordinates nothing changes; with them the
        group's whole entry is replaced by a fresh one at the default
        distance, with no seen list, and the registry is saved. */
    method SetLocation(id: GroupId, chatName: string, place: string, coords: Option<Coords>) returns (found: bool)
      requires Valid()
      modifies this
      ensures Valid()
      ensures found <==> coords.Some?
      ensures !found ==> groups == old(groups) && order == old(order) && log == old(log)
      ensures found ==> groups == old(groups)[id := NewEntry(chatName, place, coords.value, defaultDistance)]
      ensures found ==> order == if id in old(groups) then old(order) else old(order) + [id]
      ensures found ==> log == old(log) + [Save(groups, true)]
    {
      if coords.None? {
        return false;
      }
      if id !in groups {
        order := order + [id];
      }
      groups := groups[id := NewEntry(chatName, place, coords.value, defaultDistance)];
      log := log + [Save(groups, true)];
      return true;
    }

    /** `/groupstatus`: a lookup that changes nothing. */
    method GroupStatus(id: GroupId) returns (entry: Option<GroupEntry>)
      ensures entry.Some? <==> id in groups
      ensures entry.Some? ==> entry.value == groups[id]
    {
      if id in groups {
        return Some(groups[id]);
      }
      return None;
    }

    /** A chat message: ignored outside groups and when it is no command;
        otherwise `/setlocation` geocodes its argument and `/groupstatus`
        reports the group's entry. */
    method HandleMessage(isGroup: bool, id: GroupId, chatName: string, body: string, geocode: string -> Option<Coords>)
      returns (h: Handled)
      requires Valid()
      modifies this
      ensures Valid()
      ensures !isGroup || Parse(body).NoCommand? ==> h == Ignored
      ensures !(isGroup && Parse(body).SetLocation? && geocode(Parse(body).place).Some?) ==>
        groups == old(groups) && order == old(order) && log == old(log)
      ensures isGroup && Parse(body).GroupStatus? ==>
        h == Status(if id in groups then Some(groups[id]) else None)
      ensures isGroup && Parse(body).SetLocation? && geocode(Parse(body).place).None? ==>
        h == NotFound(Parse(body).place)
      ensures isGroup && Parse(body).SetLocation? && geocode(Parse(body).place).Some? ==>
        h == LocationSet(Parse(body).place) &&
        groups == old(groups)[id := NewEntry(chatName, Parse(body).place, geocode(Parse(body).place).value, defaultDistance)] &&
        order == (if id in old(groups) then old(order) else old(order) + [id]) &&
        log == old(log) + [Save(groups, true)]
    {
      if !isGroup {
        return Ignored;
      }
      var command := Parse(body);
      match command
      case SetLocation(place) =>
        var coords := geocode(place);
        var found := SetLocation(id, chatName, place, coords);
        h := if found then LocationSet(place) else NotFound(place);
      case GroupStatus =>
        var entry := GroupStatus(id);
        h := Status(entry);
      case NoCommand =>
        h := Ignored;
    }

    /** One group's turn in a poll cycle: each early return is a group left
        as far as it got, whether because the fetch failed, nothing came
        back, nothing was new or the save failed. */
    method PollOne(id: GroupId, io: GroupIo)
      requires id in groups
      modifies this
      ensures order == old(order)
      ensures (groups, log) == StepAfter((old(groups), old(log)), id, io)
    {
      ghost var state := (groups, log);
      var g := groups[id];
      if io.fetched.None? {
        StepAfterIdle(state, id, io);
        return;
      }
      var data := io.fetched.value;
      if |data| == 0 {
        StepAfterIdle(state, id, io);
        return;
      }
      var seenIds := SeenOf(g);
      var newSightings := FilterNew(seenIds, data);
      if |newSightings| == 0 {
        StepAfterIdle(state, id, io);
        return;
      }
      StepAfterNews(state, id, io);
      groups := groups[id := g.(seenBirds := Some(UpdateSeen(seenIds, newSightings)))];
      log := log + [Save(groups, io.saveOk)];
      if !io.saveOk {
        return;
      }
      var message := Compose(g.location, newSightings);
      log := log + [Send(id, message, io.sendOk)];
    }

    /** One poll cycle: every group, in registry order, with the outcomes
        `ios` gives for it; a failure in one group's turn ends that turn
        only, and the cycle goes on with the next group. */
    method PollCycle(ios: map<GroupId, GroupIo>)
      requires Valid()
      requires forall id :: id in groups ==> id in ios
      modifies this
      ensures Valid() && order == old(order)
      ensures (groups, log) == CycleAfter((old(groups), old(log)), old(order), ios)
    {
      ghost var start := (groups, log);
      var ids := order;
      var i := 0;
      while i < |ids|
        invariant 0 <= i <= |ids| && order == ids
        invariant (groups, log) == CycleAfter(start, ids[..i], ios)
      {
        var id := ids[i];
        CycleAfterSnoc(start, ids[..i], id, ios);
        assert ids[..i + 1] == ids[..i] + [id];
        PollOne(id, ios[id]);
        i := i + 1;
      }
      assert ids[..|ids|] == ids;
    }
  }
}
