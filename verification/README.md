# Netmeld verification

Dafny models of the parts of Netmeld whose behaviour is hardest to see from the code, with proofs about
them: the in-place expansion of access-control books, the execution of a playbook (one thread at a time and
interleaved), the IPv6 text grammar, the prefix and mask arithmetic of IP networks, the Junos type 9
decoder, the two readers of port ranges with the rows of an access-control service, and the index that the
data lake builds from its commit messages.

`dafny verify dfyconfig.toml` checks everything.

## How the files fit together

- `Common.dfy` has what several files need: options, digits, sequences without repetition.
- `BookGraph.dfy` is the theory of name graphs: what a name stands for, and why replacing members by what
  they stand for changes no meaning. `BookExpansion.dfy` has the books as mutable objects and the recursive
  method; `BookTheorems.dfy` and `BookImport.dfy` say what expansion means to its callers.
- `Peg.dfy` runs ordered-choice grammars. `Ipv6Grammar.dfy` has the fourteen alternatives and the counting
  rule; `Ipv6Reader.dfy` and `Ipv6Theorems.dfy` prove them equal.
- `PlaybookModel.dfy` describes a run as acts: locked groups of commands, scopes with setup and teardown, the
  plays against one network, and completions. `PlaybookTool.dfy` has the classes and loops of the tool, each
  proved to do what the acts say; `PlaybookSets.dfy` says of one command set what its log shows.
  `PlaybookTrace.dfy`, `PlaybookNesting.dfy`, `PlaybookNetwork.dfy`, `PlaybookSessions.dfy` and
  `PlaybookFailures.dfy` prove properties of whole runs. `PlaybookPlays.dfy`, `PlaybookCommands.dfy` and
  `PlaybookSetup.dfy` tell from the plan alone which commands a run issues, and `PlaybookRuns.dfy` which of them
  it executes.
- `PlaybookThreads.dfy` is a machine of threads that share one lock and one counter; `PlaybookMarks.dfy` adds
  what threads mark outside the lock, `PlaybookBounds.dfy` how many steps they take.
  `PlaybookStageThreads.dfy` gives the threads of an intra-network run over all its stages, and
  `PlaybookThreadSums.dfy` what they issue together. `PlaybookInterleavings.dfy` says what every interleaving of
  them does, `PlaybookParallelSources.dfy` how it treats the configured sources, and
  `PlaybookParallelPlays.dfy` which plays it issues.
- `Bits.dfy` and `IpNetworks.dfy`; `Junos9Tables.dfy`, `Junos9.dfy`, `Junos9Encoder.dfy` and `Junos9Example.dfy`;
  `PortText.dfy`, `PortRanges.dfy`, `PortMeaning.dfy`, `ServiceNames.dfy`, `AclServices.dfy`,
  `AclServiceRows.dfy` and `PortReaders.dfy`; and `GitLog.dfy` stand each for themselves.

## What is assumed

- A command is a value; its exit status, whether an interface is found broken, and whether the user quits
  are arbitrary functions given with the run (`outcome`, `fault`, `quit`). The name of a protocol number is
  an arbitrary function too.
- A `std::set` or a `std::map` may be walked in any order; the proofs hold for all of them.
- Integers are unbounded; eight- and sixteen-bit wrap-around is written out where the code has it.

## Where the code differs from what is said of it

- `setMask` looks at the least significant bit (`datastore/common/objects/IpNetwork.cpp:263`), not at the most
  significant one that its header comment names. The model follows the code; `TopBitRefuses` shows that the
  comment's rule would refuse every mask with a prefix strictly between none and all bits.
- A playbook failure that disables the "stage" does not last for the stage: the flag is overwritten by the next
  command set. `ForgottenInPhase` and `StageFailureSkipsOnePhase` say exactly how far it reaches.
- For the VLAN id 0x0FFF the constructor adds no link but the destructor deletes one.
  `RunNestsUnlessReserved` shows that this id is the only thing that breaks the nesting of a run.
- The IPv6 rule covers a part of section 2.2 of RFC 4291: a double colon stands for at least two groups, as section
  4.2.2 of RFC 5952 recommends of writers.
- Port texts out of range wrap around. `RightInBounds` says for which numbers a range is still right.
- The two readers of port texts do not agree: `convertToPortRange` takes an empty text for any port and does not
  know eighteen of the other reader's forty names, "any" and "rip" among them. `ReadersAgree` says on which texts
  the two give the same, `NamesAgree` on which names.
- In a book, between the removal of a member and the addition of its data the entry stands for less, unless its
  other members stand for all that the removed one does (`BetweenRemovalAndAddition`).

## Model

| member | source | states |
|---|---|---|
| BookExpansion.AcBook.AddData | datastore/common/objects/AcBook.ipp:76-80 | the data is the union of what it was and what is added |
| BookExpansion.AcBook.RemoveData | datastore/common/objects/AcBook.ipp:83-90 | the data is what it was without the one name |
| BookExpansion.AcBooks.Replace | datastore/common/utils/AcBookUtilities.hpp:57-59 | one member is replaced by its own data and no other entry of any set changes |
| BookExpansion.AcBooks.Expanded | datastore/common/utils/AcBookUtilities.hpp:37-65 | for sets without cycles but self-references, in any order of members: terminates, returns true exactly when the target exists with data, and leaves the whole collection as `Expansion` says; the recorded states lead from the old collection to the new one by single replacements, and in each of them every name of every set has the meaning it had and every entry that the target cannot reach is as it was |
| BookExpansion.AcBooks.ExpandMember | datastore/common/utils/AcBookUtilities.hpp:54-63 | handling one member, recursively or through the default set, takes the collection from one stage of the loop to the next while all meanings stay |
| BookGraph.RewritesSameMeaning | datastore/common/utils/AcBookUtilities.hpp:57-59 | replacing members by all they stand for keeps every entry's terminals, adds, drops and empties no entry, and adds no reachable name, even in a graph with cycles |
| BookGraph.MeaningUnfold | datastore/common/utils/AcBookUtilities.hpp:54-63 | the meaning of a name is the union of its members' meanings, with the name itself exactly when it refers to itself |
| BookGraph.RankDecreases | datastore/common/utils/AcBookUtilities.hpp:52-62 | the number of names reachable in the original graph decreases at each recursive call, even when measured in the graph as rewritten so far |
| BookTheorems.TargetHoldsMeaning | datastore/common/utils/AcBookUtilities.hpp:39-65 | afterwards the target holds exactly the terminal names that a path of the original set leads to |
| BookTheorems.OthersUntouched | datastore/common/utils/AcBookUtilities.hpp:52-62 | entries that the target does not reach, in the default set through a name without data, are as they were in every state that the call goes through |
| BookTheorems.EveryEntry | datastore/common/utils/AcBookUtilities.hpp:37-65 | afterwards each entry with data that the target reaches, or in the default set a name without data that the target stands for reaches, holds exactly the terminal names a path from it leads to, and every other entry of every set is as it was |
| BookTheorems.ExpansionSpares | datastore/common/utils/AcBookUtilities.hpp:37-65 | the same of what the call ends with, which has the same sets and entries |
| BookTheorems.BetweenRemovalAndAddition | datastore/common/utils/AcBookUtilities.hpp:58-59 | between `removeData` and `addData` the target stands for what it did exactly when its other members stand for all that the removed one does |
| BookTheorems.OrderIrrelevant | datastore/common/utils/AcBookUtilities.hpp:37-65 | expanding several entries gives a collection that depends on which they are, not on order or repetition |
| BookTheorems.FullExpansion | datastore/importers/nmdb-import-juniper-conf/Parser.cpp:870-879 | once all entries are expanded each holds exactly its meaning, and expanding any of them again changes nothing |
| BookImport.ExpandEverything | datastore/importers/nmdb-import-juniper-conf/Parser.cpp:870-879 | the importer's loop leaves in every entry with data exactly its meaning in the original books, and the same sets and entries |
| Peg.FirstOfIsFirst | datastore/common/parsers/ParserIpAddress.hpp:102-159 | an ordered choice matches what its first matching alternative matches |
| Ipv6Theorems.GrammarCounts | datastore/common/parsers/ParserIpAddress.hpp:102-172 | the `ipv6` rule accepts all of a text exactly when it is eight groups, or a double colon with at most six groups around it, an IPv4 address at the end counting as two |
| Ipv6Theorems.NothingHidden | datastore/common/parsers/ParserIpAddress.hpp:102-159 | a text that any alternative matches in full is accepted: no earlier alternative's partial match hides it |
| Ipv6Theorems.CountDecides | datastore/common/parsers/ParserIpAddress.hpp:109-159 | of texts with a double colon exactly those with at most six groups are accepted |
| Ipv6Theorems.Ipv4Rule | datastore/common/parsers/ParserIpAddress.hpp:52-58 | the `ipv4` rule accepts all of a text exactly when it is four octets with dots between |
| Ipv6Theorems.Ipv4Numbers | datastore/common/parsers/ParserIpAddress.hpp:52-58 | of four numbers printed with dots between the `ipv4` rule accepts all exactly if each is at most 255 |
| Peg.ZeroInFront | datastore/common/parsers/ParserIpAddress.hpp:52-58 | zeros in front of an octet do not change its value |
| Peg.DigitCharacters | datastore/common/parsers/ParserIpAddress.hpp:52-80 | which characters are decimal and hexadecimal digits |
| Ipv6Theorems.AddressRule | datastore/common/parsers/ParserIpAddress.hpp:196-197 | trying IPv4 first hides no IPv6 address: the rule accepts exactly the addresses of both kinds |
| PlaybookTool.CommandRunner.SystemExec | playbook/nmdb-playbook/CommandRunnerSingleton.cpp:85-96 | every command gets the next number and is logged once; it runs exactly when the flag is on and its number is not excluded; it succeeds exactly if it does not run or exits with zero |
| PlaybookTool.CommandRunner.ThreadExec | playbook/nmdb-playbook/CommandRunnerSingleton.cpp:98-123 | the commands get consecutive numbers in order |
| PlaybookTool.CommandRunner.ScheduleSleep | playbook/nmdb-playbook/CommandRunnerSingleton.cpp:125-137 | a pause takes a number like a command |
| PlaybookTool.RaiiVlan.constructor | playbook/nmdb-playbook/RaiiVlan.cpp:32-63 | a VLAN link is added exactly for ids below 0x0FFF |
| PlaybookTool.RaiiVlan.Destroy | playbook/nmdb-playbook/RaiiVlan.cpp:66-86 | a link is deleted for these ids and, without a name, for 0x0FFF |
| PlaybookTool.RaiiMacAddr.constructor | playbook/nmdb-playbook/RaiiMacAddr.cpp:31-54 | the MAC is changed if one is given |
| PlaybookTool.RaiiMacAddr.Destroy | playbook/nmdb-playbook/RaiiMacAddr.cpp:57-77 | and restored if one was given |
| PlaybookTool.RaiiIpLink.constructor | playbook/nmdb-playbook/RaiiIpLink.cpp:32-59 | router-advertisement settings go off before the link goes up |
| PlaybookTool.RaiiIpLink.Destroy | playbook/nmdb-playbook/RaiiIpLink.cpp:61-77 | the link goes down |
| PlaybookTool.RaiiIpAddr.constructor | playbook/nmdb-playbook/RaiiIpAddr.cpp:31-60 | the settings go on and then the address is added |
| PlaybookTool.RaiiIpAddr.Destroy | playbook/nmdb-playbook/RaiiIpAddr.cpp:62-86 | the address is deleted and then the settings go off |
| PlaybookTool.RaiiIpRoute.constructor | playbook/nmdb-playbook/RaiiIpRoute.cpp:31-60 | the route to the router comes before the default route |
| PlaybookTool.RaiiIpRoute.Destroy | playbook/nmdb-playbook/RaiiIpRoute.cpp:63-87 | and goes after it |
| PlaybookTool.Tool.RunPhaseCommands | playbook/nmdb-playbook/nmdb-playbook.cpp:1019-1063 | one command set: its templates for both families and then those for the source's own are issued in order under the next numbers; with a fail map a command runs exactly if no earlier one of the set that ran has failed; afterwards the flag is on exactly if it was on and none failed, and the stage is reported disabled exactly if one failed and the map says "stage" |
| PlaybookSets.SetIssues | playbook/nmdb-playbook/nmdb-playbook.cpp:976-984 | the same of what a set issues, for every state of the runner: the `always` templates, then the `ipv4` ones if the family is "4" and the `ipv6` ones otherwise |
| PlaybookSets.SetRuns | playbook/nmdb-playbook/nmdb-playbook.cpp:1019-1063 | the same of what runs, the flag afterwards and what is reported, from the log and the exit statuses |
| PlaybookTool.Tool.PhaseActions | playbook/nmdb-playbook/nmdb-playbook.cpp:948-995 | the phases of one network, each ending with the flag that the run and the stage flag allow |
| PlaybookTool.Tool.NetworkActions | playbook/nmdb-playbook/nmdb-playbook.cpp:916-937 | afterwards the flag is the run's own again |
| PlaybookTool.Tool.VlanIfaceThreadActions | playbook/nmdb-playbook/nmdb-playbook.cpp:813-914 | one VLAN's thread does its setup, its MACs, addresses and networks, and its teardown, and nothing but setup and teardown for an invalid id |
| PlaybookTool.Tool.PhysIfaceThreadActions | playbook/nmdb-playbook/nmdb-playbook.cpp:731-810 | one interface's thread does its VLANs inside its own setup and itself afterwards |
| PlaybookTool.Tool.RunTool | playbook/nmdb-playbook/nmdb-playbook.cpp:350-440 | the enabled stages, up to the one before which the user quits, with one thread at a time |
| PlaybookTrace.SameNumbers | playbook/nmdb-playbook/CommandRunnerSingleton.cpp:75-137 | numbers run 1, 2, 3, ... and two runs of a plan give the same command the same number, whatever they execute, exclude, or see fail, up to where one of them is quit |
| PlaybookTrace.RunActsAdds | playbook/nmdb-playbook/nmdb-playbook.cpp:916-931 | in a run that executes and excludes nothing every setup and teardown command is executed, whatever fails in the plays |
| PlaybookCommands.StagesThatGo | playbook/nmdb-playbook/nmdb-playbook.cpp:356-394 | the stages that run are the enabled ones such that the user has quit before no enabled stage up to them, which only a run that executes and prompts asks |
| PlaybookCommands.PlaysOfRun | playbook/nmdb-playbook/nmdb-playbook.cpp:963-984 | the log of a run has a template for a configuration exactly if this is a session of a configured source with a usable VLAN id in a stage that runs, and the template is, in an enabled phase of the plays for the scope, one for both families or for the source's own |
| PlaybookRuns.WhatRuns | playbook/nmdb-playbook/nmdb-playbook.cpp:965-971 | a command that is executed is not excluded, the run is one that executes, and if it is a play, its phase did not begin with a fault that the run looks at |
| PlaybookRuns.EverythingRuns | playbook/nmdb-playbook/nmdb-playbook.cpp:948-995 | every command is executed if the run executes and prompts, excludes nothing, and nothing fails or breaks |
| PlaybookSetup.SetupOfRun | playbook/nmdb-playbook/nmdb-playbook.cpp:731-914 | apart from plays the log of a run has exactly the commands that the interfaces of the stages that run use |
| PlaybookSetup.VlanLinks | playbook/nmdb-playbook/RaiiVlan.cpp:32-63 | an interface gets a link for each of its VLAN ids below 0x0FFF, named after both, and no other |
| PlaybookSetup.MacsSet | playbook/nmdb-playbook/nmdb-playbook.cpp:744-747 | each MAC is set on its own link and the first one on the interface, and no other |
| PlaybookSetup.AddrsAdded | playbook/nmdb-playbook/nmdb-playbook.cpp:841-882 | the addresses added are those of the sources with usable ids, each on its own link |
| PlaybookSetup.RoutesAdded | playbook/nmdb-playbook/nmdb-playbook.cpp:884-905 | routes are added to the routers of these sources, each on the source's link, and in inter-network runs only |
| PlaybookSetup.DefaultsAdded | playbook/nmdb-playbook/nmdb-playbook.cpp:884-905 | and so are default routes |
| PlaybookSetup.CapturesMade | playbook/nmdb-playbook/nmdb-playbook.cpp:692-715 | an interface is captured for the time set but for 90 seconds at least, and for 90 seconds if it is used without a VLAN |
| PlaybookModel.SysctlNameAt | playbook/nmdb-playbook/RaiiIpLink.cpp:32-59 | in the names of settings each dot of an interface name is a slash |
| PlaybookNesting.RunNestsUnlessReserved | playbook/nmdb-playbook/RaiiVlan.cpp:32-86 | every executed setup block is torn down, last in first out, if and only if no stage that runs has the VLAN id 0x0FFF |
| PlaybookNesting.DryRunTouchesNothing | playbook/nmdb-playbook/CommandRunnerSingleton.cpp:85-96 | a run that does not execute executes no setup or teardown command |
| PlaybookNetwork.RunIsSafeAndClean | playbook/nmdb-playbook/nmdb-playbook.cpp:731-914 | after every single command at most one default route, VLAN link, address and route exist, each only while what it rests on does, and router-advertisement settings are on for a link that is up only with an address; after the run the network is as before |
| PlaybookNetwork.StageIsSafeAndClean | playbook/nmdb-playbook/nmdb-playbook.cpp:731-914 | the same of each stage, whatever the stages before it logged |
| PlaybookSessions.EverySourceOnce | playbook/nmdb-playbook/nmdb-playbook.cpp:756-913 | a run with one thread at a time, as inter-network runs are, is, job after job, one job for each configured source with a usable VLAN id and none else: its sessions, one for each router in inter-network runs, then its completion exactly if the run executes |
| PlaybookParallelSources.EverySourceOnceInParallel | playbook/nmdb-playbook/nmdb-playbook.cpp:396-431 | in every interleaving of an intra-network run each configured source with a usable VLAN id, and none else, has its session in one thread and once; a thread's marks are its sources' sessions, each followed by its completion exactly if the run executes, and all of them are there when the run is finished |
| PlaybookParallelSources.CompletedAfterItsPlays | playbook/nmdb-playbook/nmdb-playbook.cpp:868-882 | at any point of any interleaving a source that is completed had its session before, and between the two its thread issued exactly the commands of its plays |
| PlaybookParallelPlays.PlaysOfParallelRun | playbook/nmdb-playbook/nmdb-playbook.cpp:963-984 | at any point of any interleaving of an intra-network run, templates were issued only as in `PlaysOfRun`, and all of them when the run is finished |
| PlaybookParallelPlays.SetsStayTogether | playbook/nmdb-playbook/nmdb-playbook.cpp:976-987 | at any point of any interleaving a play that was issued is one of a command set in an enabled phase, and the set's templates before it, those of the source's family after those of both, were issued just before it by the same thread |
| PlaybookFailures.LastSetDecides | playbook/nmdb-playbook/nmdb-playbook.cpp:972-987 | the last command set of a phase alone decides whether the stage stays enabled |
| PlaybookFailures.ForgottenInPhase | playbook/nmdb-playbook/nmdb-playbook.cpp:986-990 | a failure that disables the stage is forgotten by the end of its phase exactly when another command set follows |
| PlaybookFailures.StageFailureSkipsOnePhase | playbook/nmdb-playbook/nmdb-playbook.cpp:965-994 | after a phase that disables the stage nothing runs up to the end of the next phase with an enabled command set, and from there on everything runs as if nothing had failed |
| PlaybookThreads.SectionNumbers | playbook/nmdb-playbook/CommandRunnerSingleton.cpp:85-137 | a locked group that a thread has passed got a consecutive run of numbers, once |
| PlaybookThreads.SomeoneMoves | playbook/nmdb-playbook/nmdb-playbook.cpp:711-714 | while a started thread is unfinished some thread can go on |
| PlaybookStageThreads.WellBehaved | playbook/nmdb-playbook/nmdb-playbook.cpp:396-431 | every thread of a run is started at one place, and joined only by the thread that started it before |
| PlaybookInterleavings.NumbersAreConsecutive | playbook/nmdb-playbook/CommandRunnerSingleton.cpp:85-137 | at any point of any interleaving of a whole intra-network run the numbers are 1, 2, 3, ... without gap or repetition, and each setup or teardown block and each command set has a consecutive run of them |
| PlaybookInterleavings.SameCommandsAsSerial | playbook/nmdb-playbook/nmdb-playbook.cpp:731-810 | whenever some number of stages is over their threads have issued all their commands in order, and together they are, with repetitions counted, those of these stages run one thread at a time, under as many numbers |
| PlaybookInterleavings.SameNumbersAsSerial | playbook/nmdb-playbook/nmdb-playbook.cpp:368-437 | a finished parallel run has given out as many numbers as the run of the same playbook with one thread at a time, so a dry run predicts it |
| PlaybookInterleavings.StagesKeepTheirNumbers | playbook/nmdb-playbook/nmdb-playbook.cpp:427-431 | in every interleaving each stage's commands have numbers from the block that the stage has in a run with one thread at a time, so stages do not mix |
| PlaybookInterleavings.VlanInsideInterface | playbook/nmdb-playbook/nmdb-playbook.cpp:741-795 | every command of a VLAN's thread comes after all that raises its interface and before any that lowers it |
| PlaybookInterleavings.NoDeadlock | playbook/nmdb-playbook/nmdb-playbook.cpp:792-796 | no interleaving gets stuck before the run's own thread is finished |
| PlaybookInterleavings.EveryRunEnds | playbook/nmdb-playbook/nmdb-playbook.cpp:427-431 | no interleaving has more steps than the threads' programs have together, and one has that many exactly when the run is finished |
| IpNetworks.IpNetwork.AsBitset | datastore/common/objects/IpNetwork.cpp:236-255 | the bits are those of the address bytes, the first byte the most significant |
| IpNetworks.IpNetwork.Convert | datastore/common/objects/IpNetwork.cpp:83-128 | the bytes that the printer reads from memory are the address with all but its first `prefix` bits cleared, most significant byte first |
| IpNetworks.IpNetwork.GetNetwork | datastore/common/objects/IpNetwork.cpp:130-150 | nothing exactly for a set prefix that is longer than the address, the address itself for an unset one |
| IpNetworks.IpNetwork.SetPrefixFromMask | datastore/common/objects/IpNetwork.cpp:192-217 | true exactly when the mask, flipped if asked, is ones followed by zeros; the prefix becomes their number, otherwise the width |
| IpNetworks.IpNetwork.SetMask | datastore/common/objects/IpNetwork.cpp:258-277 | a mask that ends in a one is read as a wildcard mask, any other as a netmask |
| IpNetworks.NetworkNumber | datastore/common/objects/IpNetwork.cpp:83-128 | the network's number is the address's less its remainder modulo 2 to the number of host bits |
| Bits.FirstByteMost | datastore/common/objects/IpNetwork.cpp:236-255 | the number of an address has the first byte as its most significant |
| IpNetworks.NetworkOfNetwork | datastore/common/objects/IpNetwork.cpp:83-128 | masking by p and then by q is masking by the smaller |
| IpNetworks.SameNetwork | datastore/common/objects/IpNetwork.cpp:83-128 | two addresses have the same network exactly when their first p bits agree |
| IpNetworks.GuessRecovers | datastore/common/objects/IpNetwork.cpp:258-277 | netmask and wildcard mask of every p below the width give back p; all ones and all zeros give 0 |
| IpNetworks.GuessAccepts | datastore/common/objects/IpNetwork.cpp:258-277 | exactly the netmasks and the wildcard masks are accepted, and a refused mask sets the prefix to the width |
| IpNetworks.TopBitRefuses | datastore/common/objects/IpNetwork.hpp:108-116 | the rule of the header comment would refuse both masks of every prefix strictly between 0 and the width |
| Junos9Tables.JunosIsConsistent | tool-junos-type9-decode/junos-type9-decode/junos-type9-decode.cpp:66-103 | the number of each key character is its place, salts and numbered characters are the same, and every row of moduli grows by at most 64 |
| Junos9Tables.ExtraIsFamily | tool-junos-type9-decode/junos-type9-decode/junos-type9-decode.cpp:168-187 | the padding table is what the lookup generator prints for the key families |
| Junos9.GapDecode | tool-junos-type9-decode/junos-type9-decode/junos-type9-decode.cpp:201-215 | the byte is the weighted sum of the gaps modulo 256, and nothing exactly when the sizes differ |
| Junos9.GroupGaps | tool-junos-type9-decode/junos-type9-decode/junos-type9-decode.cpp:229-234 | the eight-bit gaps are the distances modulo 256, the last character is carried on, and nothing comes out exactly when a character is foreign |
| Junos9.WrappedDot | tool-junos-type9-decode/junos-type9-decode/junos-type9-decode.cpp:210-232 | wrapping each gap to eight bits, 255 for a repeated character, does not change the byte |
| Junos9.Decode | tool-junos-type9-decode/junos-type9-decode/junos-type9-decode.cpp:217-238 | the result, bytes or first fault, is the one given by integer sums of distances times moduli modulo 256 |
| Junos9Encoder.GreedyIsSmall | tool-junos-type9-decode/junos-type9-decode/junos-type9-decode.cpp:74-75 | every greedy gap plus one is below 65 |
| Junos9Encoder.RoundTrip | tool-junos-type9-decode/junos-type9-decode/junos-type9-decode.cpp:217-238 | decoding the greedy encoding of any non-empty byte string, with any known salt and any padding of the right length, gives the string |
| Junos9Encoder.JunosRoundTrip | tool-junos-type9-decode/junos-type9-decode/junos-type9-decode.cpp:217-238 | with the decoder's own tables the encoding comes back exactly if string or padding is not empty |
| Junos9Encoder.WhatDecodes | tool-junos-type9-decode/junos-type9-decode/junos-type9-decode.cpp:189-238 | a text decodes exactly when its salt is known, something follows it, the padding fits, all after the padding is in the alphabet, and that part's length modulo 20 is one of seven |
| Junos9Example.Published | tool-junos-type9-decode/junos-type9-decode/README.md:12 | the documented example decodes to "password" |
| PortRanges.PortRange.FromString | datastore/common/objects/PortRange.cpp:42-104 | the ends are those of the form in which the text, its service names replaced, is written, and zero if in none |
| PortRanges.Translate | datastore/common/objects/PortRange.cpp:106-163 | every mapping is applied in order to all its occurrences |
| ServiceNames.NamesBecomePorts | datastore/common/objects/PortRange.cpp:112-160 | every name of the table becomes its own port, although the mappings are applied one after the other to all of a text: no name occurs in a later one |
| ServiceNames.HyphenatedPorts | datastore/common/objects/PortRange.cpp:112-123 | the ports of the first ten names |
| ServiceNames.SToTPorts | datastore/common/objects/PortRange.cpp:125-134 | of the next ten |
| ServiceNames.HToRPorts | datastore/common/objects/PortRange.cpp:135-144 | of the next ten |
| ServiceNames.BToFPorts | datastore/common/objects/PortRange.cpp:145-154 | and of the last ten |
| PortRanges.FirstReplaced | datastore/common/objects/PortRange.cpp:106-163 | a name's first occurrence is replaced and then those in what follows it |
| PortRanges.MatchInterval | datastore/common/objects/PortRange.cpp:48-59 | finds an interval exactly when the text is one, spaces allowed |
| PortRanges.MatchPair | datastore/common/objects/PortRange.cpp:61-70 | finds a pair exactly when the text is two numbers with one or two dashes between |
| PortRanges.WrittenOnce | datastore/common/objects/PortRange.cpp:48-103 | a text is written in one form at most, so the order of the patterns does not matter |
| PortRanges.RoundTrip | datastore/common/objects/PortRange.cpp:165-186 | both printed notations of every range read back as the range |
| PortRanges.PrintedForms | datastore/common/objects/PortRange.cpp:165-186 | one notation is an interval with both ends in it, the other a pair, or one number for one port |
| PortMeaning.RightInBounds | datastore/common/objects/PortRange.cpp:48-103 | a range has exactly the ports its form names, a round bracket leaving its end out, if and only if the numbers are in stated bounds |
| PortMeaning.TextNamesPorts | datastore/common/objects/PortRange.cpp:48-103 | the same of the range read from a text |
| PortMeaning.SpacedInterval | datastore/common/objects/PortRange.cpp:48-59 | an interval may have spaces, tabs, line breaks and feeds around its numbers and the comma |
| PortMeaning.SpacedPair | datastore/common/objects/PortRange.cpp:61-70 | a pair may have them before the dash and after one or two dashes |
| PortText.ZeroInFront | datastore/common/objects/PortRange.cpp:48-103 | zeros in front of a number do not change its value |
| AclServices.ConvertToPortRange | datastore/nmdb-convert-acls/nmdb-convert-acls.cpp:564-677 | the ends are those of the plain form in which the text is written, all ports for an empty text, zero for any other |
| PortReaders.ReadersAgree | datastore/nmdb-convert-acls/nmdb-convert-acls.cpp:564-677 | on every text the two readers give the same exactly if its name is known to `convertToPortRange`, it is in a plain form, wrap-around included, or it is not empty and is, with the names of the other reader replaced, in no form or in one whose two ends are zero in sixteen bits |
| PortReaders.KnownNames | datastore/nmdb-convert-acls/nmdb-convert-acls.cpp:568-635 | which twenty-two names `convertToPortRange` knows |
| PortReaders.NamesAgree | datastore/nmdb-convert-acls/nmdb-convert-acls.cpp:568-635 | of the names in the other reader's table the two agree exactly on those that `convertToPortRange` knows too, with the same port; every other one is port zero to it |
| AclServiceRows.ServiceRows | datastore/nmdb-convert-acls/nmdb-convert-acls.cpp:338-406 | the rows are those of the service text's protocols and two port texts |
| AclServiceRows.RowsMeanService | datastore/nmdb-convert-acls/nmdb-convert-acls.cpp:338-406 | the rows of `protocol:source:destination`, with or without more parts, allow exactly the protocols named between exactly the ports named: `tcp-udp` names "tcp" and "udp", the remote procedure calls what stands before the first dash, a number the protocol looked up for it, any other name itself |
| AclServiceRows.RowsWithoutPorts | datastore/nmdb-convert-acls/nmdb-convert-acls.cpp:347-356 | with fewer than three parts they allow these protocols between all ports |
| AclServiceRows.ProtocolsListed | datastore/nmdb-convert-acls/nmdb-convert-acls.cpp:358-399 | the service is listed with exactly these protocols |
| AclServiceRows.OptionsCut | datastore/nmdb-convert-acls/nmdb-convert-acls.cpp:340-345 | what follows the first "--established", and in what is left the first "--tracked", does not count |
| GitLog.Parse | datalake/common/handlers/Git.cpp:129-147 | the index has for each path what the first of its check-in messages in the log says |
| GitLog.SetIngestToolData | datalake/common/handlers/Git.cpp:106-162 | each listed entry is updated from the index and no other field of it changes |
| GitLog.NewestWins | datalake/common/handlers/Git.cpp:129-147 | of every history, printed newest first with blank lines anywhere between messages, the index has exactly what each file's newest readable check-in says |
| GitLog.TwoLinesTaken | datalake/common/handlers/Git.cpp:129-147 | whatever the two lines after a check-in line are, they are taken for its tool and its arguments, and the log may end before them |
| GitLog.LastLine | datalake/common/handlers/Git.cpp:129-147 | a last line without a newline is a line |
| GitLog.EntriesGetNewest | datalake/common/handlers/Git.cpp:106-162 | the same from the printed text to the listed entry, for fields without newlines; entries without a check-in stay as they are |
| GitLog.NewestAsWritten | datalake/common/handlers/Git.cpp:220-224 | without carriage returns tool and arguments come back as they were committed |

## Left out

- BookExpansion.AcBooks.Expanded: the recorded states are those between replacements; between the `removeData` and the `addData` of one replacement meanings are kept exactly as `BetweenRemovalAndAddition` says. Books with cycles other than self-references are excluded, because the code has no guard against them.
- PlaybookTool.Tool.RunTool: runs the threads one at a time. That is the inter-network order; for intra-network runs it is one interleaving of many, and all of them are those of `PlaybookInterleavings` and `PlaybookParallelSources`.
- PlaybookTool.Tool.PhysIfaceThreadActions: runs an interface's VLAN threads one at a time, with the same remark.
- PlaybookSessions.EverySourceOnce: is about runs with one thread at a time; `EverySourceOnceInParallel` is about all interleavings of intra-network runs.
- PlaybookInterleavings.NumbersAreConsecutive: says nothing of which commands run. In parallel runs the execute flag is also written outside the lock, so properties of the flag are proved of serial runs only.
- PlaybookNetwork.RunIsSafeAndClean: commands of setup and teardown are taken to succeed; what the plays' own commands do to the host is not modelled.
- PlaybookTrace.SameNumbers: command texts are values, so two templates that render to the same text are still told apart.
- IpNetworks.IpNetwork.Convert: ends with the bytes given to `inet_ntop`; the text it prints of them is not modelled.
- AclServiceRows.RowsMeanService: port texts are empty or in a plain form, after the exact service names of `convertToPortRange`.
- Junos9.Decode: a fault is a value; the messages and the exit of the program are not modelled.
- GitLog.EntriesGetNewest: what git itself does to a message, such as stripping trailing spaces, is not modelled, nor are commits made by other programs.
- The optional `/prefix` after an address: its check reads an attribute of a rule that has none.
- The constructor of an IP network from sixteen bytes: it prints bytes without leading zeros, so no round trip holds.
- Ordering of IP networks and weights: the comparison uses closeness of floating-point numbers and is not an order.
- Databases, YAML files, program options, prompts, processes, terminals, sockets and git commands: plumbing that the model takes as data or as arbitrary functions.
- Product of rules, interface names, MAC addresses, Cisco passwords, setters and debug texts: they would only add easy members.
