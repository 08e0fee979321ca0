# Bird-alert bot: a verified model of its polling and command core

The bot watches chat groups and tells each group about newly reported notable
bird sightings near a location the group chose. Every few minutes it goes
through the group registry. For each group it does the following:

- it fetches recent notable sightings around the group's coordinates;
- it drops the sightings whose key (`speciesCode-obsDt`) the group has
  already been told about;
- it puts the new keys in front of the group's seen list, cut to 100 keys;
- it saves the registry;
- it sends a digest naming at most three of the new sightings.

A failure in one group's turn ends that turn only. Two chat commands act on
the registry. `/setlocation <place>` geocodes the place and replaces the
group's entry. `/groupstatus` reports the entry.

The model is split into modules along those lines:

- `Text` (text.dfy): JavaScript's `trim`, ASCII `toLowerCase`, `startsWith`,
  `replace` with a string pattern and `join`, plus `Split`, which reads a
  joined message back into lines.
- `Sightings` (sightings.dfy): the sighting key, the new-sighting filter and
  the capped seen list.
- `Digest` (digest.dfy): the message composer.
- `Commands` (commands.dfy): recognising the two commands in a message body.
- `Registry` (registry.dfy): group entries, one group's turn (`PollGroup`,
  `Step`) and a whole cycle (`Cycle`) as pure functions, with the cycle's
  properties as lemmas.
- `Bot` (bot.dfy): the running bot as a class. It holds the registry map, the
  registry's insertion order (the order a JavaScript `for...in` visits string
  keys) and a log of saves and sends. The commands and the poll cycle are
  methods, and each is proved against the functions of `Registry`.

Fetching sightings, geocoding, writing the storage file and sending a
message are outside calls. Their outcomes are parameters: `GroupIo` gives one
group's fetch result, save outcome and delivery outcome for a cycle, and
`geocode` is a function argument. A save or a send shows up as an `Event` in
the log, together with whether it succeeded.

### Expectations the code does not meet (the model follows the code)

- **Changing a group's location does not keep its seen list.** One might
  expect `/setlocation` on a configured group to update only the location.
  The handler at index.js:51-57 writes a whole new entry with no
  `seenBirds`, so the next poll announces everything fetched again
  (`Registry.FreshEntryAnnouncesAll`).
- **Seen keys are not kept unique.** The update at index.js:122-125 only
  prepends and cuts; it does not collapse duplicates. Two fetched sightings
  with the same key are both new and both keys are stored.
  `FilterNewPositions` states this exactly.
- **Filtering the same fetch twice can report a sighting again.** One might
  expect the second filter, against the updated list, to find nothing. It
  does when the recurring old keys lie before the cut
  (`RefilterFindsNothing`, `RefilterFindsNothingWhenRoomy`). Otherwise the
  cut of 100 can drop a key that the same fetch still carries
  (`RefilterCanFindAgain`). This follows from keeping a count rather than a
  time window, and is not listed as a finding.
- **A failed save during a poll is only logged.** A failing `saveStorage` is
  caught by the group's `try` (index.js:101, 136-138) like any other error.
  The in-memory seen list is already updated, and no digest is sent.
- **Keys identify sightings only when species codes have no hyphen**
  (`KeyInjective`).

## Model

| member | source | states |
|---|---|---|
| Sightings.Key | index.js:115 | the key is the species code, a hyphen, then the observation time |
| Sightings.KeyInjective | index.js:115 | two sightings share a key exactly when they share species code and observation time, provided species codes hold no `-` |
| Sightings.Keys | index.js:123 | the keys of a list, one per sighting, in the same order |
| Sightings.FilterNew | index.js:113-117 | a sighting is in the result exactly when it was fetched and its key is not in the seen list; the result is no longer than the fetch |
| Sightings.FilterNewEmpty | index.js:113-119 | nothing is new exactly when every fetched key is already seen |
| Sightings.FilterNewNothingSeen | index.js:113-117 | against an empty seen list the filter returns the whole fetch |
| Sightings.FilterNewPositions | index.js:114-117 | the result is the fetch read at strictly increasing positions, and those are exactly the positions whose key is unseen, duplicates included |
| Sightings.Capped | index.js:125 | `slice(0, 100)`: the first `min(100, n)` entries |
| Sightings.CappedConcat | index.js:122-125 | capping `a + b` with `a` at most 100 long keeps all of `a`, then a prefix of `b` |
| Sightings.UpdateSeen | index.js:122-125 | the updated seen list has `min(100, new + old)` entries, so never more than 100 |
| Sightings.UpdateSeenLayout | index.js:122-125 | with at most 100 new sightings the list starts with their keys in fetch order, followed by the newest part of the old list |
| Sightings.UpdateSeenOverflow | index.js:122-125 | with more than 100 new sightings the list is the keys of the first 100 of them |
| Sightings.NewKeyKept | index.js:122-125 | every new key is kept when there are at most 100 new sightings |
| Sightings.OldKeyKept | index.js:122-125 | an old key at position `i` survives when `i + new < 100` |
| Sightings.RefilterFindsNothing | index.js:113-126 | filtering the same fetch again against the updated list finds nothing, when the recurring old keys lie before the cut |
| Sightings.FetchedKeyKept | index.js:113-126 | under the same provisos, the key of every fetched sighting, new or already seen, is in the updated seen list |
| Sightings.RefilterFindsNothingWhenRoomy | index.js:113-126 | the same, whenever the old list plus the new sightings fit in 100 |
| Sightings.RefilterCanFindAgain | index.js:113-126 | a full list whose last key recurs, plus one new sighting: the recurring sighting is reported again on the next filter |
| Digest.Header | index.js:131 | the header is the owl and bold title, then the location, then the closing `*` and a blank line |
| Digest.Line | index.js:132 | a bullet line is the bullet, the common name, ` at `, the location name, ` on ` and the observation time: its length is the three fields plus 10, and each field sits at its fixed place |
| Digest.Lines | index.js:132 | one bullet line per sighting, in order |
| Digest.Shown | index.js:130 | the first `min(3, n)` new sightings |
| Digest.Compose | index.js:131-132 | the message starts with the header naming the group's location |
| Digest.LineSingle | index.js:132 | a bullet line holds no line break when the sighting's fields hold none |
| Digest.ComposeLines | index.js:130-132 | read back line by line, the body has exactly `min(3, n)` lines, line `i` describing new sighting `i` |
| Text.IsSpace | index.js:35 | the characters `trim` removes; none of them is `/` or an ASCII letter, so trimming never eats into a command |
| Text.TrimStart | index.js:35 | removes exactly the leading white space |
| Text.TrimEnd | index.js:35 | removes exactly the trailing white space |
| Text.Trim | index.js:35 | the result has no white space at either end |
| Text.TrimIsInfix | index.js:35 | the trimmed text is a slice of the input with only white space around it |
| Text.TrimOfTrimmed | index.js:44 | a text without white space at its ends is its own trim |
| Text.TrimIdempotent | index.js:44 | trimming twice is trimming once |
| Text.LowerChar | index.js:35 | an upper-case ASCII letter becomes the lower-case letter at the same place in the alphabet; every other character is kept |
| Text.ToLower | index.js:35 | same length, no upper-case letter left, each upper-case letter replaced by its lower-case partner and every other character kept |
| Text.ToLowerSpaceAt | index.js:35 | lower-casing keeps white space and non-white space in place |
| Text.ToLowerKeepsEnds | index.js:35 | a text without white space at its ends still has none after lower-casing |
| Text.ToLowerIdempotent | index.js:35 | lower-casing twice is lower-casing once |
| Text.LowerSlice | index.js:44 | a slice of a lower-case text is lower-case |
| Text.TrimKeepsLower | index.js:44 | trimming a lower-case text leaves it lower-case |
| Text.StartsWith | index.js:43 | `startsWith` holds exactly when the pattern occurs at position 0 |
| Text.IndexOf | index.js:44 | `indexOf`: the first position where the pattern occurs, or none when it occurs nowhere |
| Text.IndexOfFrom | index.js:44 | the first occurrence of the pattern at or after `from`, or none |
| Text.ReplaceFirst | index.js:44 | `replace` with a string pattern changes only the first occurrence, and changes nothing when there is none |
| Text.ReplacePrefix | index.js:43-44 | when the text starts with the pattern, removing the first occurrence removes that prefix |
| Text.Join | index.js:132 | `join`: a single piece is returned as is, and otherwise the result starts with the first piece |
| Text.Split | index.js:132 | splitting always gives at least one piece |
| Text.SplitPiece | index.js:132 | a piece without separators splits into itself |
| Text.SplitAfterPiece | index.js:132 | splitting a piece, a separator and a rest gives the piece followed by the rest's pieces |
| Text.SplitJoin | index.js:132 | `Split` undoes `Join` when no piece holds the separator |
| Commands.Normalize | index.js:35 | the matched text is no longer than the body, holds no upper-case letter and has no white space at its ends |
| Commands.NormalizeIsInfix | index.js:35 | the matched text is a slice of the body, lower-cased, with only white space cut away on either side |
| Commands.CommandsExclusive | index.js:43-63 | no text both starts with `/setlocation` and equals `/groupstatus` |
| Commands.PlaceOf | index.js:43-44 | the argument is the trimmed rest after the leading `/setlocation`, is lower-case and has no white space at its ends |
| Commands.Parse | index.js:35-63 | `/setlocation` is recognised exactly when the normalised body starts with it, `/groupstatus` exactly when the normalised body is it; the place is the trimmed, lower-case rest |
| Registry.SeenOf | index.js:113 | the stored seen list, or the empty list when `seenBirds` is absent |
| Registry.NewEntry | index.js:51-57 | the entry `/setlocation` writes: the chat name, the place, the coordinates, the given distance and no seen list |
| Registry.PollGroup | index.js:99-135 | only the seen list can change; the group changes exactly when the fetch succeeded and something is new; the list is then the updated, capped one; a message exists exactly when the save succeeded, and it is the digest of the new sightings |
| Registry.FreshEntryAnnouncesAll | index.js:51-132 | a group whose location was just set announces all of its next non-empty fetch and stores all of its keys, up to 100 |
| Registry.Step | index.js:99-138 | a group's turn changes that group's entry only, as `PollGroup` says; no change means no event |
| Registry.StepAfterIdle | index.js:101-119 | a group whose fetch failed, came back empty or brought nothing new leaves the registry and the log as they were |
| Registry.StepAfterNews | index.js:122-135 | with something new, the turn updates the group's seen list, logs a save of the updated registry with its outcome and then, only if the save succeeded, the digest's send |
| Registry.Cycle | index.js:99-139 | a cycle keeps the set of groups |
| Registry.CycleAfter | index.js:99-139 | a cycle applied to a registry and a log keeps the set of groups, and an empty cycle changes nothing |
| Registry.CycleAfterSnoc | index.js:99-139 | a cycle over one more group is the shorter cycle followed by that group's turn |
| Registry.CycleEntries | index.js:99-139 | failure isolation: each group ends as polling it alone from its old entry with its own outcomes gives; groups outside the cycle are untouched |
| Registry.CycleSends | index.js:99-139 | a group gets a message in a cycle exactly when polling it alone produces one, and then exactly that message with its own delivery outcome |
| Registry.SendsFollowSavesConcat | index.js:99-139 | save-before-send holds for the concatenation of two event runs that each satisfy it |
| Registry.CycleSavesBeforeSending | index.js:126-135 | every message directly follows a successful save in which the addressee's seen list is already updated |
| Registry.CycleIgnoresDelivery | index.js:134-138 | the registry after a cycle does not depend on whether messages were delivered |
| Registry.CycleKeepsSeenBounded | index.js:122-126 | seen lists of at most 100 keys stay so through a cycle |
| Bot.AlertBot.constructor | index.js:14-19 | starts from the stored registry, or an empty one when there is no storage file, with an empty log |
| Bot.AlertBot.SetLocation | index.js:45-58 | without coordinates nothing changes; otherwise the entry is replaced by a fresh one at the default distance with no seen list, a new group joins the end of the order, and a successful save of the registry is logged |
| Bot.AlertBot.GroupStatus | index.js:63-70 | a read-only lookup: an entry exactly when the group is registered, and then its entry |
| Bot.AlertBot.HandleMessage | index.js:33-70 | non-group chats and non-commands are ignored; only a `/setlocation` that geocodes changes state; `/groupstatus` reports the entry |
| Bot.AlertBot.PollOne | index.js:100-138 | one group's turn leaves the registry and the log as `Step` says |
| Bot.AlertBot.PollCycle | index.js:97-140 | the registry ends as `Cycle` over the groups in insertion order says, the cycle's saves and sends are appended to the log in that order, and the order is unchanged |

## Left out

- Chat transport: connecting, QR pairing, `msg.getChat`, `getChatById` and `msg.reply`. A reply is modelled as the `Handled` value the handler returns. The reply texts themselves and the console logging are not modelled.
- HTTP requests to the sighting provider and to the geocoder, including the `, USA` suffix, the request parameters, the API key and `parseFloat`. A fetch is its result (`GroupIo.fetched`). Geocoding is a function argument. Coordinates and the search radius are opaque reals.
- Exceptions thrown while reading the fetch, which the same `try` catches: a `res.data` that is not an array (`.length` at index.js:111 or `.filter` at 114 fails) or a `null` element (reading `speciesCode` at 115 fails). Such fetches are modelled as a failed fetch. A sighting that merely lacks a field does not throw: the template literals write the field as `"undefined"`, and the model covers that as a `Sighting` whose field is the text `undefined`.
- JSON reading and writing of `storage.json`. A write is a `Save` event carrying the whole registry, and its outcome is `GroupIo.saveOk`. The write in `/setlocation` is assumed to succeed. If it fails, the `async` listener at index.js:33 rejects after the in-memory map has changed, and the rejection goes unhandled. What happens next depends on the runtime's unhandled-rejection policy. Under the default since Node 15 the process ends, so the change is lost and `storage.json` keeps the old registry. Under a lenient policy the change stays in memory and only the reply is lost.
- The cron schedule and `pollingIntervalMinutes`. One call of `PollCycle` is one firing.
- Concurrency. Handlers and cycles interleave at every `await`, for example a `/setlocation` in the middle of a cycle, or overlapping cycles. The model runs each command and each cycle atomically.
- Text.ToLower: only ASCII letters are mapped, while JavaScript's `toLowerCase` maps all of Unicode.
- Keys of JavaScript objects that are integer-like strings (`for...in` visits those first, in numeric order). Group ids are chat ids ending in `@g.us`, so the model uses plain insertion order.
