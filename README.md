# denonavr — a verified model of the session engine and the AMXB beacon parser

`denonavr` is a Node.js controller for Denon AV receivers. It speaks the
receiver's text protocol over TCP port 23. Every command and every status
report is a line ending in a carriage return (CR). When the receiver's
address is not given, the controller finds it by listening for AMXB
discovery beacons on UDP multicast.

This project models two parts of it in Dafny.

- `index.js` holds the session object (`Session.DenonAvr`). Its dispatcher
  sends one command at a time from a FIFO queue and paces them by each
  command's `wait`. The connection flag follows the socket's events. The
  receive path decodes terminated lines against a fixed table of five
  start-anchored patterns into a `state` map and notifies a callback. The
  address adoption runs from discovery reports. The public accessors build
  and enqueue commands.
- `amxb.js` holds the beacon handler (`Amxb.OnMessage`). It checks the
  `AMXB` header, then repeatedly takes the leftmost `<-KEY=VALUE>` tag of the
  remaining text into a map.

Layout:

| file | module | contents |
|---|---|---|
| `wrappers.dfy` | `Wrappers` | `Option` |
| `strings.dfy` | `Strings` | character search; JavaScript `split` on one character and its inverse `Join`; the terminated lines of a chunk |
| `decoder.dfy` | `Decoder` | the five-entry pattern table; `checkCommand`; decoding a line and a chunk as functions |
| `commands.dfy` | `Commands` | the commands the accessors build; decoding their echo |
| `amxb.dfy` | `Amxb` | the tag pattern as `TagAt`/`Search`; the scanning loop as a method; the tag list `Tags` and the map `Collect` it specifies |
| `adoption.dfy` | `Adoption` | the discovery callback as a pure transition, and its effect over a series of reports |
| `session.dfy` | `Session` | the class `DenonAvr` with its fields updated in place; its event and accessor methods, proved against the functions above |

The session carries ghost histories: `pushed` records every command
enqueued and `taken` every command moved into `run`. Its invariant `Valid()`
has these parts:

- FIFO order (`Queued()`): `pushed == taken + que`, and the command in
  flight is the last one taken.
- The dispatcher is idle only when the queue is empty.
- The rest (`Linked()`): the state is well typed (only the five decoded
  properties, `muted` a boolean and the others text); the keeper runs
  exactly when it has dialled at least once; an armed reconnect or a
  destroyed socket implies that the keeper runs.

Writes to sockets are logged in `sent`. The state values handed to the
state callback are logged in `notified`. Keeper dials are logged in `dials`, and
sockets destroyed by a change of address are counted in `destroyed`.

## Model

| member | source | states |
|---|---|---|
| `Strings.IndexOf` | amxb.js:43 | the result is the first position at or after `i` holding `c`, or the length when there is none |
| `Strings.Split` | index.js:67 | `split('\r')` gives at least one piece, and no piece contains the separator |
| `Strings.JoinSplit` | index.js:67 | joining the pieces with the separator gives back the original text |
| `Strings.SplitJoin` | index.js:67 | separator-free pieces, joined and split again, come back unchanged |
| `Strings.Terminated` | index.js:67-68 | the lines the loop visits (all pieces but the last) contain no CR |
| `Strings.TerminatedOfLines` | index.js:67-68 | lines each followed by CR, then an unterminated tail, yield exactly those lines |
| `Strings.TerminatedIgnoresTail` | index.js:67-68 | text after the last CR never changes the decoded lines |
| `Decoder.RunEnd` | index.js:70 | the end of the maximal run of class characters starting at `i` |
| `Decoder.CheckCommand` | index.js:46-52 | a capture is non-empty and follows the pattern's prefix at the start of the line |
| `Decoder.RunMatch` | index.js:46-52 | a `^P([class]+)` pattern matches iff a class character follows the prefix; the capture is all class characters and is maximal |
| `Decoder.OnOffMatch` | index.js:71 | an on-or-off pattern `^P(ON or OFF)` matches iff `ON` or `OFF` follows the prefix, and the capture is that word |
| `Decoder.Assign` | index.js:81-85 | the value stored for a capture: for the entry with a true symbol (`muted`), whether the capture equals it; otherwise the capture as text |
| `Decoder.DecodeEntries` | index.js:76-88 | the inner loop after its first `n` table entries: each matching entry stores its value and appends a snapshot |
| `Decoder.DecodeLine` | index.js:76-88 | one line against the whole table, in table order |
| `Decoder.DecodeLines` | index.js:68-89 | the outer loop: the lines in order, each decoded from the state the previous one left, snapshots concatenated |
| `Decoder.AtMostOneEntry` | index.js:69-75 | no line matches two entries of the table |
| `Decoder.DecodeLineMatch` | index.js:76-88 | a line matching entry `k` writes only that entry's property (the capture as text, or for `muted` whether it equals `ON`) and fires the callback once, with the new state |
| `Decoder.DecodeLineNoMatch` | index.js:76-88 | a line matching no entry leaves the state unchanged and fires no callback |
| `Decoder.VolumeLine` | index.js:70 | `MV` and a digit run sets `volume` to exactly those digits as text, whatever non-digit follows |
| `Decoder.MuteLine` | index.js:71 | `MUON`/`MUOFF` set `muted` to true/false |
| `Decoder.InputLine` | index.js:72 | `SI` and a run of `A-Z0-9.¥/` sets `input` to that run |
| `Decoder.PowerLine` | index.js:73 | `ZMON`/`ZMOFF` set `powerState` to the text `ON`/`OFF`, not a boolean |
| `Decoder.DynamicVolumeLine` | index.js:74 | `PSDYNVOL ` and a capital-letter run sets `dynamicVolume` to that run |
| `Decoder.DecodeLinesInvariant` | index.js:66-90 | decoding keeps the state well typed (only the five properties, `muted` boolean, the rest text), fires at most one callback per line, and the last snapshot is the final state |
| `Decoder.FragmentsNotReassembled` | index.js:67-68 | `MV`+digits in one chunk and more digits with CR in the next change nothing, while the same text in one chunk sets the volume |
| `Commands.PowerOn` | index.js:156-158 | the command `on()` enqueues |
| `Commands.PowerOff` | index.js:161-163 | the command `off()` enqueues |
| `Commands.SetVolume` | index.js:166-168 | the command `setVolume(vol)` enqueues |
| `Commands.SetMute` | index.js:171-173 | the command `setMute(mute)` enqueues |
| `Commands.SetInput` | index.js:176-178 | the command `setInput(inp)` enqueues |
| `Commands.SetDynamicVolume` | index.js:181-183 | the command `setDynamicVolume(dv)` enqueues |
| `Commands.VolumeEcho` | index.js:166-168 | `setVolume` enqueues with wait 0 a command whose echo decodes to the level set |
| `Commands.MuteEcho` | index.js:171-173 | `setMute` enqueues with wait 0 a command whose echo decodes to the boolean set |
| `Commands.InputEcho` | index.js:176-178 | `setInput` enqueues with wait 0 a command whose echo decodes to the source set |
| `Commands.DynamicVolumeEcho` | index.js:181-183 | `setDynamicVolume` enqueues with wait 0 a command whose echo decodes to the mode set |
| `Commands.PowerCommandsNotDecoded` | index.js:156-163 | `PWON`/`PWSTANDBY` hold the queue for 5000 ms, and their text matches no decoder entry |
| `Amxb.TagAt` | amxb.js:43 | a match at `i` is a well-formed tag (non-empty key without `=`, non-empty value without `>`) ending within the text |
| `Amxb.TagAtSound` | amxb.js:43 | a match covers exactly the rendered text of the tag it captures |
| `Amxb.TagAtComplete` | amxb.js:43 | every well-formed tag written at `i` is matched there with exactly its key and value |
| `Amxb.Search` | amxb.js:43 | `match` returns a well-formed tag starting at or after `i` |
| `Amxb.SearchLeftmost` | amxb.js:43 | the returned match is the leftmost one, and no match exists anywhere when none is returned |
| `Amxb.SearchSkips` | amxb.js:43 | a stretch without `<` is skipped: no match starts there |
| `Amxb.Tags` | amxb.js:43-46 | the tags the loop finds: the leftmost match, then the tags of the text after it |
| `Amxb.TagsWellFormed` | amxb.js:43-45 | every tag the loop finds is well formed |
| `Amxb.TagsOfRendered` | amxb.js:40-46 | well-formed tags written after text without `<` are found again, in order, with no overlap |
| `Amxb.Header` | amxb.js:35 | the first four characters are `AMXB` |
| `Amxb.Store` | amxb.js:44 | `js[key] = value` on a plain object: the key `__proto__` is not stored, any other key is set |
| `Amxb.Collect` | amxb.js:40-44 | the map the loop builds from `{}`: the tags stored in order |
| `Amxb.OnMessage` | amxb.js:34-47 | no callback without the `AMXB` header; otherwise the sender and the map of every tag found, stored in order, even if empty |
| `Amxb.ProtoNeverStored` | amxb.js:44 | the callback's map never holds `__proto__`, and a tag naming it changes nothing |
| `Amxb.ProtoBeacon` | amxb.js:35-47 | `AMXB<-__proto__=x>` passes the header check and yields the empty map |
| `Amxb.CollectLastWins` | amxb.js:44 | a key other than `__proto__` holds the value of the last tag naming it |
| `Amxb.CollectKeeps` | amxb.js:44 | a key no tag names keeps its entry, present or absent |
| `Amxb.BeaconOfTags` | amxb.js:35-47 | the header followed by well-formed tags passes the check and yields the map of those tags |
| `Amxb.ExampleTags` | amxb.js:42-45 | `AMXB<-Device-Model=AVR-X2400H><-Config-URL=http://x>` yields those two tags in order |
| `Amxb.ExampleBeacon` | amxb.js:35-47 | the same beacon passes the header check and yields `{Device-Model: AVR-X2400H, Config-URL: http://x}` |
| `Adoption.ModelAccepted` | index.js:138 | the model filter passes: no model configured, or the report's `Model` equals it |
| `Adoption.Adopt` | index.js:138-150 | a report changes the target iff the model filter passes and the address is new and local; then the address is adopted and the keeper is on; the keeper is started only if it was off, and the socket is destroyed only if it was on |
| `Adoption.AdoptIdempotent` | index.js:141 | once the session holds the reported address, a repeat of the report changes nothing whatever the locality answer then; a report refused only because its address was not local is adopted when repeated after the address has become local |
| `Adoption.AdoptAll` | index.js:137-151 | the callback applied to a series of reports, each with its own locality answer, collecting the effects in order |
| `Adoption.KeeperStartsOnce` | index.js:141-149 | over any series of reports the keeper starts at most once (never if it already runs); it runs at the end exactly when it ran at the start or was started; every socket destruction comes after the keeper runs |
| `Adoption.OtherModelsIgnored` | index.js:138-140 | with a model configured, reports of other models (or with no `Model` tag) change nothing |
| `Session.DenonAvr.constructor` | index.js:107-123 | an empty queue, nothing in flight, disconnected, empty state; `mdns` iff an address is given |
| `Session.DenonAvr.Init` | index.js:126-136 | a given model replaces the filter; with an address the keeper starts and dials it, otherwise discovery listens |
| `Session.DenonAvr.Dispatch` | index.js:12-31 | the queue head moves into `run`, `retry` becomes 5, and `cmd + CR` is written only when connected; an empty queue leaves the dispatcher idle; FIFO is kept |
| `Session.DenonAvr.TimerFired` | index.js:33-36 | the command in flight is dropped and the next one dispatched, or the dispatcher goes idle |
| `Session.DenonAvr.PushExec` | index.js:38-44 | the command joins the tail of the queue; it is dispatched at once iff nothing is in flight; at most one command is in flight |
| `Session.DenonAvr.Connected` | index.js:57-63 | `ZM?` and CR are written and the session is connected |
| `Session.DenonAvr.Error` | index.js:93-96 | the session is disconnected |
| `Session.DenonAvr.Closed` | index.js:99-103 | the session is disconnected and one more reconnect is armed |
| `Session.DenonAvr.Reconnect` | index.js:102 | an armed reconnect dials the address adopted by then |
| `Session.DenonAvr.Received` | index.js:66-90 | state and snapshots are those of decoding the chunk's terminated lines in order, and the state stays well typed |
| `Session.DenonAvr.ReceivedLines` | index.js:68-89 | the outer loop decodes the first `n` pieces in order |
| `Session.DenonAvr.ReceivedLine` | index.js:76-88 | the inner loop tests the line against every entry in order |
| `Session.DenonAvr.Discovered` | index.js:137-151 | the new address, keeper flag, dials and destroyed sockets are those `Adopt` gives for the report and the locality answer at its arrival |
| `Session.DenonAvr.On` | index.js:156-158 | enqueues `PWON` with wait 5000 |
| `Session.DenonAvr.Off` | index.js:161-163 | enqueues `PWSTANDBY` with wait 5000 |
| `Session.DenonAvr.SetVolumeLevel` | index.js:166-168 | enqueues `MV` and the level with wait 0 |
| `Session.DenonAvr.SetMuted` | index.js:171-173 | enqueues `MUON` or `MUOFF` with wait 0 |
| `Session.DenonAvr.SetInputSource` | index.js:176-178 | enqueues `SI` and the source with wait 0 |
| `Session.DenonAvr.SetDynamicVolumeMode` | index.js:181-183 | enqueues `PSDYNVOL ` and the mode with wait 0 |

Behaviour that follows from the code and that the model keeps:

- No response is matched to a command, and nothing is retried or backed
  off. `retry` is set to 5 but never read.
- A command dispatched while disconnected is dropped unwritten when its wait
  ends.
- Nothing is cleared on close.
- A line split across two TCP chunks is lost (`FragmentsNotReassembled`).
- A beacon tag with the key `__proto__` is not stored, because a plain
  object's `__proto__` setter ignores a string (`ProtoNeverStored`).
- `powerState` is stored as the text `ON`/`OFF`, while `muted` is a boolean.

The scenario methods in `session.dfy` walk a session through several events
as a client would: `ReportScenario`, `AddressChangeScenario`,
`DispatchScenario`, `DrainScenario` and `DisconnectedScenario`.

## Left out

- Sockets: the TCP connect, write and destroy, and the UDP socket setup, multicast loopback, `tryAddMembership` and its retry (amxb.js:9-15, 25-31, 51). The model keeps only the connection flag, a log of written texts, a log of dialled addresses and a count of destroyed sockets.
- Timers: the wait and reconnect delays are not measured. A pending dispatcher timer is represented by `run` holding a command, and a pending reconnect by the `reconnects` counter. `TimerFired` and `Reconnect` are the events of those timers firing.
- The `MV?` and `SI?` probes that the connect callback writes after 300 ms and 600 ms (index.js:60-61), because they are timer-driven writes with no effect on the modelled state.
- `localaddress.js` is not part of this model. Its answer for a report's address, taken when the report arrives, is an input `local` of `Adopt`, of each `Report` of `AdoptAll`, and of `Discovered`, so the answer may change between reports.
- `example.js` (an interactive command line) and all `debug`/`console` logging.
- Bytes: received data and datagrams are modelled as characters. The decoding of `toString()` and the `'ascii'` decoding of the header are not modelled.
- JavaScript coercion: `setVolume`, `setInput` and `setDynamicVolume` take their argument as a string, so number-to-string conversion is not modelled.
- Session.DenonAvr.SetMuted: takes a `bool`. The source branches on the truthiness of any value, so for example `setMute("false")` sends `MUON`; that coercion is not modelled.
- The callbacks: the state callback is represented by the log of state values it receives, and the discovery callback by `OnMessage`'s result. Replacing the callback in `init` is not modelled.
- Session.DenonAvr.Received: each entry of `notified` is the state as it was when the callback fired. The source passes the live `state` object, so a callback that keeps it sees later writes; that aliasing is not modelled.
- The decoder table (`Decoder.Table`, index.js:69-75) is a constant, so it has no contract of its own; its entries are stated by the per-line lemmas and `AtMostOneEntry`.
- Session.DenonAvr.Dispatch: requires nothing in flight. Both callers guarantee this (`pushExec` tests `run`, `dispatcher2` clears it), so the source's own `run == null` test always succeeds and its other branch is not modelled.
- Session.DenonAvr.Init: takes an `Option`, so an explicit `null` model and a missing one both keep the old filter. The source would set the filter to `null`, which also disables it.
- Session.DenonAvr.Connected: requires the keeper to run, as do `Error`, `Closed` and `Received`, because those events come only from a socket the keeper created.
