# Verified model of the asusrouter library

asusrouter is an asyncio client for ASUS routers. It keeps a cache of router data, rewrites whole tables on the
router from what it last read, speaks several delimited text formats, and heals its own connection. This project
models those parts in Dafny 4.11 and proves what they are for. `dafny verify dfyconfig.toml` checks everything.

Four groups of results carry the project.

- **The cache and the rule table under concurrency** (`DataState`, `DataCache`, `CacheProtocol`, `RuleUpdates`). Reads
  run side by side, wait for each other, time out and are cancelled; rule updates re-read, edit and rewrite the whole
  table under a lock; scalar writes invalidate it; every call may end without a reply at any point, and others may write
  to the router. One invariant over all reads in flight gives: the cache never serves a rule table older than an
  acknowledged write, no reader waits for a dead fetch, a failed read changes nothing, and a forced read is what it says.
  A second one, over the lock and the log, gives that no rule update is lost. Beside what never happens stands what
  does: a read is served exactly when it may be, and an update that is answered goes through from any state.
  `DataCache.AsusRouter` is the object itself; its methods are proved equal to the steps the protocol is built from.
- **Text formats** (`Delimited`, `Text`, `ParentalControl`, `Capacity`, `StaticDhcp`, `StaticDhcpUpdates`, `Vpnc`).
  All rest on one library of `split`, `join` and `replace`, whose key fact is that a separator whose first character
  does not come again inside it cannot be found across a seam. The round trips are stated as equivalences that name
  exactly the inputs that do not survive.
- **The connection** (`Connection`, `Login`). The mutually recursive request, fallback and login methods terminate,
  and whatever their nesting they move the configuration as the flat run of their outcomes does; so the bound of three
  fallbacks, strict SSL and forced verification are proved once, on runs. `Login` is the single login in flight, over
  every interleaving of callers: what holds at any time, and that a login that is answered connects.
- **Arithmetic and algebra** (`Color`, `MergeDicts`, `Firmware`). A double rounding that is exactly invertible, the
  laws of the merge across endpoints, and the order on versions.

Several modules use a parameter `lenient`. It stands for whatever Python's `int` and `float` make of text that is not
a plain decimal numeral; every statement holds for every `lenient`.

## What came out otherwise than one might expect

- The MAC pattern of a rule ends in `$`, so it accepts a final newline. Such a rule is filed under a key that its own
  reading does not give back (`ParentalControl.EditThenRead`), and without a name it is dropped silently while the
  unchanged table is written (`ParentalControl.CheckedTwice`). `NewlineMacMisfiled` and `NewlineMacDropped` show both.
- A rule update survives when it is planned straight after its own forced read, or while no write that the router took
  has gone without a reply (`RuleUpdates.NoLostUpdate`). Once there is an endpoint finder it stays, and the library plans
  straight after the read, so nothing is lost (`RuleUpdates.UninterruptedIsCareful`), with one exception. A pending reboot
  is handled, and awaited, between the forced read and the plan (asusrouter/asusrouter.py:431-433 and 1158-1159). Meanwhile the
  answer to an older read can put an older table back into the cache, and after a write without a reply nothing marks
  it stale: the update planned next undoes that write (`RuleUpdates.UpdateLost`, `RuleUpdates.FirstRuleGone`).
- A table read from the router can hold two MAC texts that clean to the same one. Rewriting it loses a row
  (`ParentalControl.AlikeMacsLoseRow`).
- A legacy DHCP row has one optional column. A host name there that reads as an IPv4 address comes back as the DNS
  server (`StaticDhcp.SerializeThenParseIff`); the parser itself never produces such a lease (`StaticDhcp.ParsedIsFixed`).
  `AddressHostNameLost` shows one, and `StaticDhcpUpdates.LegacyRowTakesAddress` a set call that ends so.
- The VPN Fusion writer counts rows that the reader skips. After an empty or short row it changes another client, or
  none (`Vpnc.SwitchesIff`); in a list with a leading `<`, unit 0 is always an error (`Vpnc.LeadingDelimiterHides`).
- With one request at a time, fallbacks are bounded unless the settings allow multiple fallbacks, fallbacks and upgrades
  and SSL is not strict; exactly then answers that clear the tracker let the connection go round for ever. Otherwise
  there are at most three (`Connection.BoundIff`). With overlapping requests they are bounded, by two, exactly where
  fallbacks are off or SSL is strict, since a late certificate error counts as one more (`Connection.OverlappingBoundIff`).
- Both second checks for a session in the login task are never needed (`Login.RecheckNeverFires`).
- Both conditions of the order on firmware versions are needed. On every version with a major, mixing numbers and
  pre-release labels gives a circle (`Firmware.MixedRevisionsCycle`), and for any two lengths of majors there is a
  circle of versions with those lengths (`Firmware.LengthsMatter`).
- A colour whose channels are all below one and not all the same does not survive loading and printing
  (`Color.RoundTripIff`, `Color.NegativeChannelLost`).

## Model

| member | source | states |
|---|---|---|
| CacheProtocol.CacheIsFresh | asusrouter/asusrouter.py:1018-1155 | After any run, foreign writes and calls without a reply included, a rule table the cache may serve is the one the router held at an instant later than every acknowledged parental-control write |
| CacheProtocol.ServedIsFresh | asusrouter/asusrouter.py:1032-1050 | In every reachable state, what a read of the rules is served without a request was not insisted to be new, is younger than the cache time, and is the table the router held at an instant later than every acknowledged write |
| DataCache.DecidedIff | asusrouter/asusrouter.py:1032-1071 | A read is served exactly when it does not insist and the cell has true data, not stale and younger than the cache time, and then with that data; otherwise it is over without a finder, and asks with one, under a snapshot of every generation |
| CacheProtocol.ReadDecides | asusrouter/asusrouter.py:1015-1071 | A read that begins while nobody fetches its datatype takes that decision: served or without a finder it is over, else its fetch is on its way and the others wait |
| CacheProtocol.ResumeDecides | asusrouter/asusrouter.py:1018-1071 | So does a read that has waited |
| RuleUpdates.NoLostUpdate | asusrouter/asusrouter.py:1290-1306 | After any run without foreign writes in which every update is planned straight after its forced read or with no stored write lost, the vectors on the router are the initial ones rewritten by exactly the stored rule updates in their order, each computed from what its predecessor left; calls may end without a reply at any point |
| RuleUpdates.ReplayIsEditAll | asusrouter/modules/parental_control.py:237-294 | For every fetched table and all rules, a sequence of text rewrites goes through just when the sequence of table edits does, and reads as it |
| RuleUpdates.TableAfterRun | asusrouter/asusrouter.py:1290-1306 | After any such run, from every table, reading the router gives the initial table with every stored update applied in order and nothing else |
| RuleUpdates.LastRuleStands | asusrouter/modules/parental_control.py:237-294 | In a well-filed table, after any updates none of which is misfiled, each device has the last rule given to it, none where that one was a removal, and its old one where there was none |
| RuleUpdates.RulesAfterRun | asusrouter/asusrouter.py:1290-1306 | The same of what the router holds after any such run |
| RuleUpdates.UninterruptedIsCareful | asusrouter/asusrouter.py:1290-1306 | With a finder that stays and nothing between a forced read and its plan, every run meets the condition of the update theorems, whatever writes go without a reply |
| RuleUpdates.FreshPlanIsCurrent | asusrouter/asusrouter.py:1295-1306 | Straight after its forced read the lock holder plans from what the router holds, whatever was lost before |
| RuleUpdates.CachedPlanIsCurrent | asusrouter/modules/parental_control.py:252-269 | With no stored write lost since the last acknowledged one, any usable cache holds what the router holds |
| RuleUpdates.AnsweredIsCareful | asusrouter/asusrouter.py:1197-1204 | Where every stored write is acknowledged, it does not matter when updates are planned |
| RuleUpdates.StepKeepsLog | asusrouter/asusrouter.py:1290-1306 | Every step keeps the log in line with the router and the lock holder's view steady |
| RuleUpdates.RuleTaken | asusrouter/asusrouter.py:1290-1306 | When the router takes a rule write, its vectors become the rewrite of those it held |
| RuleUpdates.UpdateGoesThrough | asusrouter/asusrouter.py:1290-1306 | From any state with the lock free and nobody fetching the rules, a rule update that is answered ends with the edited table on the router, one more entry in the log, the write acknowledged after it was stored, the cache stale and the lock free |
| RuleUpdates.RefusedLeaves | asusrouter/modules/parental_control.py:252-281 | An update with nothing to send gives the lock back and changes nothing |
| RuleUpdates.PlannedIff | asusrouter/modules/parental_control.py:252-281 | There is something to send exactly when the cache holds rules that are not stale and the edit is accepted |
| RuleUpdates.ScalarGoesThrough | asusrouter/asusrouter.py:1197-1204 | A scalar write that is answered makes the cached rules stale and is acknowledged after it was stored |
| RuleUpdates.UpdateLost | asusrouter/asusrouter.py:1126-1159 | For any fetched table, any two accepted rules and any cache time: when the first rule's write gets no reply and an older answer arrives between the forced read of the second and its plan, both are stored and the router holds the table with the second only |
| RuleUpdates.FirstRuleGone | asusrouter/asusrouter.py:1126-1159 | From an empty router, with two new devices, such a run stores both rules, and the first is not there |
| CacheProtocol.NobodyWaitsForever | asusrouter/asusrouter.py:1018-1030 | After any run, an active datatype has its event clear and a fetch in flight, and a waiting reader is released or waits for such a fetch |
| CacheProtocol.OnlyCompletionChangesData | asusrouter/asusrouter.py:1052-1156 | In every reachable state, no step of a read changes data, timestamp, staleness or generation of any datatype, but the one with which it returns normally; so a read that fails, is cancelled or finds its datatype invalidated changes nothing |
| CacheProtocol.ForcedReadIsCurrent | asusrouter/asusrouter.py:1126-1156 | In every reachable state, a forced read that returns has installed a value built only from answers given after its snapshot, with no invalidation in between |
| CacheProtocol.StepKeepsInvariant | asusrouter/asusrouter.py:997-1156 | Every step of every task, and every foreign write, keeps the invariant over the cells, the fetches in flight and the router's history |
| CacheProtocol.AckTakenStep | asusrouter/asusrouter.py:1197-1204 | An acknowledged write, with or without a scalar saved into the stale data, makes the generation of every earlier fetch stale |
| CacheProtocol.AcknowledgedStep | asusrouter/asusrouter.py:1197-1204 | An acknowledged write leaves the rules stale under the next generation, with their data kept or the saved scalar in it; its task is gone with its lock, and no other cell changes |
| CacheProtocol.FailedStep | asusrouter/asusrouter.py:1151-1156 | A call that fails at any step is gone with its lock, and a fetch of its is over; neither the router nor the log changes |
| CacheProtocol.OtherSavedStep | asusrouter/modules/data.py:95-130 | A value saved for another datatype changes the data of that cell alone, and not its staleness |
| DataState.AsusDataState.Invalidate | asusrouter/modules/data.py:67-71 | Marks stale and moves the generation on, keeping the data |
| DataState.AsusDataState.Start | asusrouter/modules/data.py:73-77 | Active, waiters held back, nothing else |
| DataState.AsusDataState.Stop | asusrouter/modules/data.py:79-83 | Not active, waiters released, nothing else |
| DataState.AsusDataState.Update | asusrouter/modules/data.py:85-93 | New data, not stale, stamped, released; the generation stays |
| DataState.AsusDataState.UpdateState | asusrouter/modules/data.py:95-117 | A scalar joins the data dictionary, or starts one in place of anything else; staleness stays |
| DataState.AsusDataState.OffsetTime | asusrouter/modules/data.py:119-130 | Moves the timestamp unless stale |
| DataCache.AsusRouter.CheckState | asusrouter/asusrouter.py:693-707 | A missing cell is created expired; all others stay the very same objects |
| DataCache.AsusRouter.InvalidateParentalControl | asusrouter/asusrouter.py:1197-1204 | Exactly the parental-control cell is invalidated, created first if missing |
| DataCache.AsusRouter.BeginRead | asusrouter/asusrouter.py:1032-1071 | Serves the cache, gives up without a finder, or starts a fetch with a snapshot of all generations; the cells change as that decision says |
| DataCache.AsusRouter.FinishFetch | asusrouter/asusrouter.py:1126-1156 | Succeeds just when nothing was invalidated and a forced datatype is there; installs everything or nothing, and releases the waiters either way |
| DataCache.AsusRouter.Install | asusrouter/asusrouter.py:1137-1149 | The saving loop, in any order of keys, installs all datatypes of the answer but those invalidated since the snapshot |
| DataCache.BegunEach | asusrouter/asusrouter.py:1052-1062 | A served read changes no cell, one without a finder releases the waiters of its own, one that asks holds them back |
| DataCache.FinishedEach | asusrouter/asusrouter.py:1126-1156 | Cell by cell: what a read that ends has installed, stamped and released, and what it has left alone |
| DataCache.MergedEach | asusrouter/tools/readers.py:55-97 | Of two merged answers: every datatype of either, as old as the older, with the rules of the first |
| Delimited.NoStraddle | asusrouter/modules/parental_control.py:409-412 | A separator whose first character does not come again is found before itself only inside what precedes it |
| Delimited.SplitJoin | asusrouter/modules/parental_control.py:409-412 | Splitting undoes joining for parts without the separator |
| Delimited.ReplaceUndo | asusrouter/modules/static_dhcp.py:158-161 | Decoding undoes encoding where the entity did not occur before |
| Delimited.ReplaceJoin | asusrouter/modules/parental_control.py:488-488 | Replacing in a joined text is replacing in its parts, for a token that cannot overlap the separator |
| Delimited.EntityRoundTrip | asusrouter/modules/endpoint/hook.py:512-517 | Text free of entities is the same raw and encoded, in both orders of decoding in use |
| Text.CleanStringFixpoint | asusrouter/tools/converters.py:41-53 | Cleaning returns the very text exactly when nothing was to be cleaned |
| Text.StripCuts | asusrouter/tools/converters.py:41-53 | Stripping takes the white space off both ends, all of it and nothing else |
| Text.SafeIntReads | asusrouter/tools/converters.py:373-395 | A number in decimal, with white space around it or not, is read as that number |
| ParentalControl.PutGet | asusrouter/modules/parental_control.py:377-381 | Adding a rule changes the look-up of its own MAC and of no other |
| ParentalControl.DropGet | asusrouter/modules/parental_control.py:402-406 | Removing a rule ends the look-up of its own MAC and of no other |
| ParentalControl.PutInPlace | asusrouter/modules/parental_control.py:377-381 | A rule for a known MAC takes the place of the old one |
| ParentalControl.DropOne | asusrouter/modules/parental_control.py:402-406 | The entries of other MACs stay in their order |
| ParentalControl.ParentalControlRule.Check | asusrouter/modules/parental_control.py:297-359 | Accepts just the writable rules of known type, and fills defaults into the rule object even when the name is then too long |
| ParentalControl.AcceptedIff | asusrouter/modules/parental_control.py:297-359 | A rule is accepted exactly when its MAC is six pairs of hexadecimal digits, a final newline allowed, its type is Disable, Time or Block, name and time map hold no delimiter or control character or the time map is the default, and a name that says something has at most 32 characters |
| ParentalControl.AcceptedFields | asusrouter/modules/parental_control.py:341-348 | Of an accepted rule the name and the time map stay as given; a blank name becomes the MAC and a blank time map the default one |
| ParentalControl.CheckedIsWritable | asusrouter/modules/parental_control.py:306-341 | A checked rule holds no column separator in either spelling |
| ParentalControl.CheckedTwice | asusrouter/modules/parental_control.py:277-283 | The second check returns what the first did, except for a nameless rule whose MAC ends in a newline, which it drops |
| ParentalControl.NewlineMacDropped | asusrouter/modules/parental_control.py:371-375 | A nameless rule with such a MAC leaves the empty table empty though the update is accepted |
| ParentalControl.NewlineMacMisfiled | asusrouter/modules/parental_control.py:53-53 | A named rule with such a MAC, added to an empty table, is not read as it was written |
| ParentalControl.MacClean | asusrouter/modules/parental_control.py:53-53 | Of the MACs the pattern accepts, just those without a final newline are clean text |
| ParentalControl.ReadPcRules | asusrouter/modules/parental_control.py:415-468 | The loop over the four vectors builds the table of the rows, and fails on missing, non-text or unaligned vectors |
| ParentalControl.ReadRulesFailsIff | asusrouter/modules/parental_control.py:415-437 | Vectors are read exactly when all four are text of equally many columns |
| ParentalControl.OneRuleTold | asusrouter/modules/parental_control.py:439-468 | One rule as a router tells it: MAC, name, time map and type in four columns, and which code stands for which type |
| ParentalControl.CollectGet | asusrouter/modules/parental_control.py:447-466 | Of rows with the same MAC text the last one counts |
| ParentalControl.WritePcRules | asusrouter/modules/parental_control.py:471-490 | The four joined columns, with the time column decoded |
| ParentalControl.CodeRoundTrip | asusrouter/modules/parental_control.py:452-463 | Every written type code reads as the type it was written for |
| ParentalControl.NonEmptyIsVisible | asusrouter/modules/parental_control.py:439-441 | A non-empty table never encodes as the four empty strings |
| ParentalControl.WriteThenRead | asusrouter/modules/parental_control.py:409-490 | Written, encoded and read again, a table without separators gives its rows in order, collected by their MAC texts |
| ParentalControl.EveryRowReads | asusrouter/modules/parental_control.py:409-490 | With distinct MAC texts every row comes back |
| ParentalControl.RowsPreservedIff | asusrouter/modules/parental_control.py:409-490 | Of everything a fetch can give, the table itself comes back, up to `<` and empty text, exactly when every entry is filed under its own clean MAC |
| ParentalControl.TwoRowsRead | asusrouter/modules/parental_control.py:447-468 | Two MAC texts that clean to the same one are read as two rows |
| ParentalControl.AlikeMacsLoseRow | asusrouter/modules/parental_control.py:471-490 | Rewriting that table loses a row |
| ParentalControl.BlankMac | asusrouter/tools/converters.py:41-53 | Such texts: they differ in a blank |
| ParentalControl.ViewIsWritable | asusrouter/modules/parental_control.py:415-468 | Every row a reading produced holds no separator, so it can be written again |
| ParentalControl.EditThenRead | asusrouter/modules/parental_control.py:237-294 | For every table a fetch can give, the table read after an accepted edit is the edited one exactly when the rule is no named one whose MAC ends in a newline and every entry under another key is filed under its own clean MAC |
| ParentalControl.EditFaithfulIff | asusrouter/modules/parental_control.py:271-281 | Exactly then the edited table is well filed |
| ParentalControl.EditGet | asusrouter/modules/parental_control.py:237-294 | An edit of any table with distinct keys changes the look-up of the rule's own MAC, to the checked rule or to none, and of no other |
| ParentalControl.SetRule | asusrouter/modules/parental_control.py:237-294 | Refuses without a current table or a valid rule, else sends the rewritten table; the cached dictionary is not touched |
| ParentalControl.RuleTold | asusrouter/modules/parental_control.py:237-294 | After an accepted rule was set, reading the router gives under its MAC that rule with the very time map and name given, or the defaults for blank ones, unless another entry claims the MAC |
| ParentalControl.RemovalTold | asusrouter/modules/parental_control.py:384-406 | After a removal, reading the router gives nothing under that MAC, unless another entry claims it |
| ParentalControl.RuleDict.AddRule | asusrouter/modules/parental_control.py:362-381 | The dictionary with the checked rule put in place, or as it was |
| ParentalControl.RuleDict.RemoveRule | asusrouter/modules/parental_control.py:384-406 | The dictionary without that MAC |
| Capacity.CountPcRuleEntries | asusrouter/modules/parental_control.py:112-125 | Rows, and the non-empty schedule windows with `<` in either spelling |
| Capacity.ChainStaysWithin | asusrouter/modules/parental_control.py:128-177 | Along any chain of accepted tables neither count exceeds the larger of its start and its limit |
| Capacity.SetAcceptedIff | asusrouter/modules/parental_control.py:128-177 | Setting a rule is accepted exactly when the device is known or there is a free place, and its windows do not grow or there is room for them; without advertised limits there are 16 places and 128 windows |
| Capacity.RemovalAccepted | asusrouter/modules/parental_control.py:156-166 | A removal is accepted however full the table is |
| Capacity.WindowsCounted | asusrouter/modules/parental_control.py:112-125 | The windows of a time map are the non-empty texts between its delimiters, in either spelling |
| Capacity.CountsSurviveTheWire | asusrouter/modules/parental_control.py:112-177 | Writing, encoding and reading changes neither count |
| StaticDhcp.Ipv4NormalForm | asusrouter/modules/static_dhcp.py:57-68 | A normal address holds no delimiter and normalises to itself |
| StaticDhcp.MacNormalForm | asusrouter/modules/static_dhcp.py:41-48 | A normal MAC, from digits or from a number, holds no delimiter and normalises to itself |
| StaticDhcp.OctetIff | asusrouter/modules/static_dhcp.py:57-68 | The parts of an address are the numerals of the numbers up to 255 |
| StaticDhcp.Ipv4Iff | asusrouter/modules/static_dhcp.py:57-68 | A text is an address exactly when, less the white space around it, it is four of them with dots |
| StaticDhcp.MacIff | asusrouter/modules/static_dhcp.py:41-48 | A text is a MAC exactly with twelve hexadecimal digits in it or as a number of 48 bits |
| StaticDhcp.MacDenotes | asusrouter/modules/static_dhcp.py:41-48 | Its normal form is six pairs of capital digits with colons, and stands for the same number |
| StaticDhcp.NormalizeIff | asusrouter/modules/static_dhcp.py:83-110 | A lease is valid exactly with a MAC, an address, no DNS server or an address for one, none in the legacy layout, and a host name without delimiters; what becomes of each field |
| StaticDhcp.NormalizeIdempotent | asusrouter/modules/static_dhcp.py:83-110 | Normalising a lease twice is normalising it once |
| StaticDhcp.SerializeLease | asusrouter/modules/static_dhcp.py:165-177 | The columns of the lease's layout, with trailing empty ones left off |
| StaticDhcp.LeaseWritten | asusrouter/modules/static_dhcp.py:165-177 | The row of a lease, character by character, for each layout and each field left out |
| StaticDhcp.RowReadIff | asusrouter/modules/static_dhcp.py:113-147 | Which rows are read: two to four columns, with the conditions on each |
| StaticDhcp.RowTold | asusrouter/modules/static_dhcp.py:113-147 | What a row tells, column by column; a third and last column is a DNS server if it is an address and else a legacy host name |
| StaticDhcp.ListTold | asusrouter/modules/static_dhcp.py:150-162 | A list is read row by row: an empty row says nothing, and one that cannot be read spoils the list |
| StaticDhcp.RowRoundTrip | asusrouter/modules/static_dhcp.py:113-177 | Parsing a written row gives the lease back as its layout can tell it |
| StaticDhcp.AmbiguousIff | asusrouter/modules/static_dhcp.py:128-135 | A lease comes back equal exactly when it is not a legacy one whose host name reads as an address |
| StaticDhcp.SerializeThenParse | asusrouter/modules/static_dhcp.py:150-177 | Parsing the serialised list, raw or encoded, gives every lease back in order |
| StaticDhcp.SerializeThenParseIff | asusrouter/modules/static_dhcp.py:150-177 | The list comes back lease for lease exactly when none is ambiguous |
| StaticDhcp.ParsedIsFixed | asusrouter/modules/static_dhcp.py:150-177 | On whatever the parser produced, serialise-then-parse is the identity, layouts included |
| StaticDhcp.AddressHostNameLost | asusrouter/modules/static_dhcp.py:128-135 | A normal legacy lease with an address for host name is read with that address as DNS server and no host name |
| StaticDhcp.ExampleAddresses | asusrouter/modules/static_dhcp.py:41-68 | AA:BB:CC:DD:EE:FF and 10.0.0.9 are normal, so there is such a lease |
| StaticDhcpUpdates.FindDuplicate | asusrouter/modules/static_dhcp.py:188-197 | The two growing sets find a repeated address just when there is one |
| StaticDhcpUpdates.CompileStaticDhcpLeases | asusrouter/modules/static_dhcp.py:180-205 | The serialised list and the switch, or a refusal for an invalid lease or a repeated address |
| StaticDhcpUpdates.CompiledIff | asusrouter/modules/static_dhcp.py:180-205 | A list compiles exactly when each lease is valid and no normalised address repeats; the switch is the one asked for, or on just if there is a lease |
| StaticDhcpUpdates.SetThenFirst | asusrouter/asusrouter.py:1450-1498 | After a set call the MAC looks up the new lease and every other MAC what it did before |
| StaticDhcpUpdates.WithoutOneMore | asusrouter/asusrouter.py:1509-1517 | The leases of other MACs are all kept, in their order |
| StaticDhcpUpdates.RemovalWritesIff | asusrouter/asusrouter.py:1500-1529 | A removal writes exactly when it is to be applied, its MAC is one, some lease has it, and the remaining addresses do not repeat; the service stays on just if it was and a lease remains |
| StaticDhcpUpdates.SetWritesIff | asusrouter/asusrouter.py:1450-1498 | A set call writes exactly when its lease is valid, no lease of another MAC has its address, those repeat none, and a legacy row is asked for no DNS server; the service is on then |
| StaticDhcpUpdates.SetStores | asusrouter/asusrouter.py:1450-1498 | The lease it stores, field by field, and its layout: legacy only where the MAC has a legacy row, or is new in a table with one |
| StaticDhcpUpdates.EffectThenRead | asusrouter/asusrouter.py:1448-1529 | The list read after an update is the previous one without that MAC, and with the new lease for a set; all others equal and in order |
| StaticDhcpUpdates.SetStoresLeaseIff | asusrouter/asusrouter.py:1450-1498 | The lease asked for is the lease stored, unless the table calls for the legacy layout and the host name asked for reads as an address |
| StaticDhcpUpdates.LegacyRowTakesAddress | asusrouter/asusrouter.py:1450-1498 | Setting an address as host name for a MAC in a legacy row stores it as DNS server |
| StaticDhcpUpdates.NoLostUpdate | asusrouter/asusrouter.py:1448-1529 | After any run, raw or encoded answers alike and calls ending without a reply at any point, the stored text reads as the initial list with exactly the stored updates applied in order |
| StaticDhcpUpdates.UpdateGoesThrough | asusrouter/asusrouter.py:1448-1529 | While the lock is free, an update that is answered leaves its request on the router if it has one to write, and everything as it was if not; either way the lock is free again |
| StaticDhcpUpdates.AbandonFrees | asusrouter/asusrouter.py:1448-1529 | A call that ends without a reply is gone with its lock, and what is stored stays |
| Connection.StepLowers | asusrouter/connection.py:595-691 | Where the settings settle, each fallback lowers the number still possible; with a kept tracker also twice the unused types plus one for TLS |
| Connection.AtMostThree | asusrouter/connection.py:543-771 | Over any run of outcomes the fallbacks stay within what settings, port and tracker leave room for: at most three, and two where certificate errors lead to none |
| Connection.BoundIsReached | asusrouter/connection.py:595-691 | Some run uses the whole of that bound |
| Connection.NoBoundWithMultiple | asusrouter/connection.py:537-539 | Where the settings do not settle, any number of fallbacks can happen, from any port and tracker |
| Connection.NoBoundWhenOverlapping | asusrouter/connection.py:543-556 | Where certificate errors lead to fallbacks, overlapping requests can cause any number of them |
| Connection.BoundIff | asusrouter/connection.py:537-691 | One request at a time: the fallbacks are bounded exactly under settings that settle, and then by three |
| Connection.OverlappingBoundIff | asusrouter/connection.py:543-691 | Requests overlapping: the fallbacks are bounded exactly where certificate errors lead to none, and then by two |
| Connection.WhatChanges | asusrouter/connection.py:693-725 | Runs change scheme, port and verification only, verification only to on, and end on a default port once they fell back |
| Connection.StepCases | asusrouter/connection.py:543-691 | The fallback matrix in plain settings and port numbers: where every outcome leads from every configuration, and what it marks as used |
| Connection.StrictStaysSecure | asusrouter/connection.py:629-634 | Under strict SSL no run leaves HTTPS, overlapping requests included |
| Connection.LeavesHttpsIff | asusrouter/connection.py:543-556 | Some run leaves HTTPS exactly when fallbacks are allowed and SSL is not strict |
| Connection.UpgradeVerifies | asusrouter/connection.py:669-687 | A connection that began on HTTP and is on HTTPS verifies certificates |
| Connection.Connection.SendRequest | asusrouter/connection.py:497-593 | Terminates; the configuration is where the outcomes lead, a reply is the last answer, an error means the last exchange failed |
| Connection.Connection.ChooseFallback | asusrouter/connection.py:595-691 | Each row of the fallback matrix names the fallback, or the error, and the verification flag the specification does |
| Connection.Connection.HandleFallback | asusrouter/connection.py:595-691 | The configuration moves as specified, and the request is repeated after a fallback |
| Connection.Connection.Move | asusrouter/connection.py:693-767 | New parameters, the tracker marked, and the session gone |
| Connection.Connection.Fallback | asusrouter/connection.py:765-771 | After the move, a fresh login except inside a login |
| Connection.Connection.Apply | asusrouter/connection.py:704-725 | What each kind of fallback sets |
| Connection.Connection.ConnectWithLock | asusrouter/connection.py:344-406 | Stores the token last answered, opened on the parameters in use, unless there is a session already |
| Connection.Connection.Query | asusrouter/connection.py:773-801 | Logs in if needed, gives up without a session, else the reply of the request |
| Connection.Connection.ResetConnection | asusrouter/connection.py:874-884 | No session, no token, no header |
| Connection.Connection.WholeLife | asusrouter/connection.py:152-246 | Whatever the object was asked to do so far: at most three fallbacks where the settings settle, strict SSL kept, an upgraded connection verified |
| Login.StepKeepsInvariant | asusrouter/connection.py:295-406 | Every step keeps one live login, a coherent session and served waiters, and no step replaces the token of a live session |
| Login.FellBackKeeps | asusrouter/connection.py:727-771 | A fallback, with a login to cancel or without, keeps all of it and leaves no session |
| Login.SingleLogin | asusrouter/connection.py:309-342 | At most one login is neither finished nor told to cancel, and it is the one callers join |
| Login.RecheckNeverFires | asusrouter/connection.py:386-394 | While a login is live there is no session |
| Login.SessionIsCoherent | asusrouter/connection.py:396-405 | Connected exactly with a token and the header built from it, opened under the parameters in use |
| Login.TokenIsKept | asusrouter/connection.py:386-405 | The token of a live session stays until a reset |
| Login.ReplyStores | asusrouter/connection.py:377-406 | The answer to a login in flight ends it: with a token the connection is connected with that token, its header and the parameters in use, with an empty one it has no session |
| Login.LoginGoesThrough | asusrouter/connection.py:309-342 | Without a session or a login in flight, a caller that is answered with a token ends connected with it, and no login is left |
| Login.ConnectJoins | asusrouter/connection.py:301-318 | A caller waits for nobody while there is a session, else for the login in flight, else for a new one |
| Login.CancelledStoresNothing | asusrouter/connection.py:736-760 | A login told to cancel only ends |
| Login.FailureEnds | asusrouter/connection.py:325-342 | A login that fails ends and leaves the connection as it was |
| Login.LoginRetries | asusrouter/connection.py:727-765 | A fallback inside the login in flight moves the parameters on and sends its request again under them |
| Login.FallBackAsks | asusrouter/connection.py:727-771 | A fallback outside a login moves the parameters on and either cancels the login in flight and waits for it, or leaves no session and a fresh login |
| Login.OldEndedAsks | asusrouter/connection.py:748-771 | Once the cancelled login has ended there is no session, and a fresh login is on its way |
| Login.ResetEnds | asusrouter/connection.py:874-884 | Giving the session up leaves neither token nor header |
| Login.NobodyWaitsForNothing | asusrouter/connection.py:736-771 | Whoever waits, waits for a task that can take its next step; a cancelled one ends with it |
| Vpnc.ReadClients | asusrouter/modules/endpoint/hook.py:519-543 | The counting loop makes a client of each well-formed row, the last of one id in the place of the first |
| Vpnc.ProcessVpnc | asusrouter/modules/endpoint/hook.py:512-597 | The loop and the sort by type and id compute the table of the well-formed rows |
| Vpnc.OneRowTable | asusrouter/modules/endpoint/hook.py:512-597 | A list of one plain row with seven columns or more, raw or encoded, is a table of one client, under the type its second column names and the id of its third, each field from its own column |
| Vpnc.RowInList | asusrouter/modules/endpoint/hook.py:519-543 | A row in any place of a list of plain rows is read as the client its columns tell, numbered by the complete rows before it |
| Vpnc.RowInTable | asusrouter/modules/endpoint/hook.py:576-588 | In a list in which no id comes twice it stands in the table under its own type and id |
| Vpnc.LastOfEachId | asusrouter/modules/endpoint/hook.py:528-543 | Of the rows with one id exactly the last is kept |
| Vpnc.SortedLast | asusrouter/modules/endpoint/hook.py:584-588 | Of the clients with one type and id the last one stands in the table |
| Vpnc.FlagWords | asusrouter/tools/converters.py:248-265 | The words, in any case, that a flag is told by, and no others |
| Vpnc.GetArgumentClientlist | asusrouter/modules/vpnc.py:193-220 | The list with one flag rewritten, nothing, or an index error, negative indices included |
| Vpnc.OtherUnits | asusrouter/modules/vpnc.py:203-217 | Units past the end give nothing, negative ones count from the end, and ones too far below are an error |
| Vpnc.UnitFound | asusrouter/modules/vpnc.py:223-248 | The unit of a client is found under its type and id, and under no other |
| Vpnc.WithFlagFields | asusrouter/modules/vpnc.py:212-217 | A rewritten row has the same fields but for the flag |
| Vpnc.RewrittenSurvives | asusrouter/modules/vpnc.py:193-220 | The rewritten text is read alike, raw or encoded |
| Vpnc.KeptFrom | asusrouter/modules/endpoint/hook.py:519-543 | A unit number is the place of its row in the text exactly when all rows up to it are well formed |
| Vpnc.SwitchesOne | asusrouter/modules/vpnc.py:193-220 | With those rows well formed, rewriting a unit switches its client and nothing else |
| Vpnc.MissesUnit | asusrouter/modules/vpnc.py:206-210 | With a malformed row before it, the client asked for stays as it was |
| Vpnc.SwitchesIff | asusrouter/modules/vpnc.py:193-220 | A client whose flag has to change is the one switched exactly when no row up to it is malformed |
| Vpnc.LeadingDelimiterHides | asusrouter/modules/vpnc.py:206-214 | In a list with a leading delimiter the one client has unit 0, and rewriting that unit is an index error |
| Vpnc.HiddenClient | asusrouter/modules/vpnc.py:206-214 | The client of `<a>OpenVPN>1>u>p>0>5` is off and cannot be switched on |
| Vpnc.SetStateThenRead | asusrouter/modules/vpnc.py:149-248 | Switching a client found by type and id: the next reading differs in its flag and in nothing else |
| Color.RoundIff | asusrouter/tools/converters.py:571-583 | Rounding gives the nearest integer, of two equally near ones the even one, and nothing else |
| Color.NormalisedNearest | asusrouter/modules/color.py:145-158 | A colour above the scale is brought down in proportion, each channel to the nearest number |
| Color.LoadedNearest | asusrouter/modules/color.py:285-306 | Channels are stored as the nearest to their part of the brightest one |
| Color.LoadedDark | asusrouter/modules/color.py:285-306 | What is stored for black, and for channels below zero |
| Color.PrintedNearest | asusrouter/modules/color.py:308-338 | Channels are printed as the nearest to their part of the brightness |
| Color.ChannelRoundTrip | asusrouter/modules/color.py:302-325 | Scaling a channel up from the peak and down again, each rounded, returns it |
| Color.RoundTripIff | asusrouter/modules/color.py:285-338 | Loading and printing returns the channels, normalised to the scale, exactly when some channel is positive or all are the same |
| Color.NegativeChannelLost | asusrouter/modules/color.py:285-338 | The channels 0, -1, 0 do not come back |
| Color.ExactRoundTrip | asusrouter/modules/color.py:285-338 | Channels within the scale come back exactly |
| Color.BrightnessSurvives | asusrouter/modules/color.py:248-251 | The brightness set is the brightest channel printed, is read back, and a further print changes nothing |
| Color.ColorRGBB.FromRgbwb | asusrouter/modules/color.py:285-306 | The normalised colour at full scale, with its peak as brightness |
| Color.ColorRGBB.SetBrightness | asusrouter/modules/color.py:248-251 | Brightness clamped to the scale, channels kept |
| Color.ColorRGBB.ToRgb | asusrouter/modules/color.py:308-338 | The channels brought down to the brightness |
| Color.ParseColors | asusrouter/modules/color.py:55-89 | One loaded colour for each complete triple; a missing number fails |
| Color.ParsedEach | asusrouter/modules/color.py:55-89 | Three channels to a colour, in order: none from fewer than three, a failure exactly for a missing number in a complete triple, and scale 128 for a scale of zero |
| Color.ZonesRoundTrip | asusrouter/modules/color.py:55-89 | Printing the parsed zones reproduces the channel list, less an incomplete last triple |
| MergeDicts.MergeDicts | asusrouter/tools/readers.py:55-97 | The loop, in any order of keys, computes the merge, and fails where it does |
| MergeDicts.LookMerged | asusrouter/tools/readers.py:55-97 | On every path the merge tells what the first tree tells, or the second where the first has nothing or None |
| MergeDicts.MergeFailsIff | asusrouter/tools/readers.py:72-79 | It fails exactly when somewhere a value is met by a dictionary |
| MergeDicts.MergeIdempotent | asusrouter/tools/readers.py:55-97 | Merging a tree with itself gives that tree |
| MergeDicts.MergeAssociative | asusrouter/tools/readers.py:55-97 | Merging the later two first succeeds exactly when they do not clash and merging in order succeeds, with the same outcome |
| MergeDicts.MergeAllTellsFirst | asusrouter/asusrouter.py:1073-1124 | Merging endpoint after endpoint tells everywhere the first thing told and loses no key |
| MergeDicts.MergeEndpoints | asusrouter/asusrouter.py:1073-1124 | Asks all endpoints, or with `any` no further than the first that tells something |
| Firmware.LessParts | asusrouter/modules/firmware.py:281-286 | The loop compares the parts both majors have |
| Firmware.Less | asusrouter/modules/firmware.py:232-331 | The sequence of comparisons decides as the layered order does |
| Firmware.BelowIsLexicographic | asusrouter/modules/firmware.py:232-331 | Versions of one source with equally long majors and no labels come in the order of their numbers from left to right: major, minor, build, revision, a missing one before any other |
| Firmware.PartsBelowIff | asusrouter/modules/firmware.py:281-286 | The first part in which two majors differ decides |
| Firmware.BeforeIff | asusrouter/modules/firmware.py:287-303 | The first character in which two labels differ decides, and a beginning comes first |
| Firmware.LabelsDecide | asusrouter/modules/firmware.py:287-303 | With the numbers equal, labels of one source come in the order of the dictionary |
| Firmware.LabelAgainstNumber | asusrouter/modules/firmware.py:253-303 | A label against a number: what stands before its first alpha, or beta, is compared with the numeral, and at a tie the label comes first |
| Firmware.LabelWithoutPrefix | asusrouter/modules/firmware.py:253-267 | A label without either mark is compared as it is, and one with nothing before its mark as -1 |
| Firmware.SourceIff | asusrouter/modules/firmware.py:126-141 | Which source a revision tells |
| Firmware.BelowAsymmetric | asusrouter/modules/firmware.py:232-331 | Irreflexive and asymmetric for all versions |
| Firmware.BelowIsTotalOrder | asusrouter/modules/firmware.py:232-331 | Transitive, and of one source total, on majors of one length with revisions all numbers or none |
| Firmware.MixedRevisionsCycle | asusrouter/modules/firmware.py:287-303 | On every version with a major, 2beta1 is below 2, 2 below 20alpha, and 20alpha below 2beta1 |
| Firmware.UnequalMajorsCycle | asusrouter/modules/firmware.py:281-286 | A major between two longer ones that it begins, and that differ, closes a circle |
| Firmware.LengthsMatter | asusrouter/modules/firmware.py:281-286 | For any two different lengths there is a circle of majors with those lengths |
| Firmware.UnequalMajorsExample | asusrouter/modules/firmware.py:281-286 | 3.0.0.4.386, 3.0.0.387 and 3.0.0.3.388 are such a circle |

## Left out

Assumed about the router and the network:

- For the update theorems of `RuleUpdates` and `StaticDhcpUpdates`: nobody else writes to the router, and it does not take
  a write after the call that sent it has ended. `CacheProtocol` allows both, as its `Foreign` event.
- One endpoint of a read carries the parental-control rules.
- The router hands the four rule vectors back with every `>` as an entity, and the lease and client lists raw or with
  both delimiters as entities. The lease text it starts with holds no entity of its own.
- Endpoint processing is pure, so the fetch of the identity inside the loop, `_transform_data`, `_check_flags` and
  `_check_postrequisites` do not take part in the cache steps.
- The reply to a scalar write and the saving of its value are one step; a connection dropped in between is not modelled.

Weaker than the source, or under a condition:

- Connection.Connection.SendRequest: under settings that put no bound on fallbacks the network is taken to cause only
  finitely many of them (`patience`), because otherwise the request never returns; one request ends before the next
  begins, so a login that outlives its five seconds is not followed further here. `Login` covers overlapping logins.
- Connection.Connection.MakeRequest: a request is an outcome out of the client's control; the re-creation of a closed
  session, charsets, response sizes, redirects and status codes are folded into it.
- DataState.AsusDataState.UpdateState: which state is saved, under which key and for which id, is not kept, only that the
  data is a dictionary from then on; the error on an id that holds no dictionary is not modelled.
- Login.SingleLogin: a login task is cancelled by fallbacks only, not by the program that owns the event loop.
- RuleUpdates.NoLostUpdate: speaks of one router object and of updates made through `async_set_state`; raw service
  calls go past the lock.
- StaticDhcpUpdates.NoLostUpdate: speaks of the set and remove calls; `async_apply_static_dhcp_leases` called directly
  goes past the lock.
- StaticDhcp.NormalizeIpv4: an address is a dotted quad; integers, packed bytes and the other forms the ipaddress
  library takes are not modelled, and neither are layouts other than the two.
- Color.RoundTripIff: division is exact, here and in all of `Color`, where Python divides in floating point first.
- MergeDicts.MergeDicts: a value that is not a dictionary has no copy, so a list met by an empty dictionary fails here.
- MergeDicts.MergeFailsIff: the same; a list has a copy in Python, and met by an empty dictionary it stays.
- Vpnc.ProcessVpnc: the status fields, the WireGuard keys merged into the table and the placeholders for missing
  clients are not part of it; letter case is folded for ASCII and the Kelvin sign only.
- Vpnc.SetStateThenRead: speaks of the part of the table that `Vpnc.ProcessVpnc` computes.
- ParentalControl.RowsPreservedIff: a type code the library does not know is read as unknown and written as -999, so the
  code itself is not kept; only the type is.

Not modelled:

- Datatype mappers, support flags, identity collection, speed and usage figures: table-driven.
- JSON, XML and JavaScript readers, and the pattern that takes firmware strings apart.
- Aura `set_state` and `set_color`, `average_color`, and colours given as text.
- `Firmware.__gt__`, which is "not below and not equal" and so holds both ways for versions that cannot be compared.
- Sessions, timeouts as durations, logging, dumping, redaction and the command line.
