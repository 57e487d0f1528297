# A verified model of the TA forwarder

Total Annihilation players who meet in a lobby are connected by a small program of their own: it carries the
game's DirectPlay traffic between the peers over UDP, watches that traffic to referee the game, records it to
demo files, and streams demos to spectators with a delay. This project models the algorithms underneath and
proves what they are relied on for. Each part has a specification on values (functions and state machines),
the program's own loops and objects as imperative Dafny proved equal to that specification, and theorems about
the specification over all inputs or all runs.

- **The reliable channel** (`Fragments`, `Buffers`, `TafnetNode`, `Session`, `Recovery`, `Schedules`, `Repairs`). A selective-repeat
  protocol over UDP: messages are cut into numbered fragments, kept until acknowledged, put in order and joined
  again. A session is two nodes and a network that may lose, repeat and reorder every packet. In every run each
  side hands out a prefix of what the other was given. From every reachable state a short run of timer resends
  and deliveries delivers everything, and so does every schedule of rounds without loss, whatever the order. A receiver with a gap asks for exactly what is
  missing, and the answer takes it on.
- **The packet codec** (`Lz`, `LzRoundTrip`, `LzChoice`, `Cipher`, `Smartpak`, `SmartPaker`, `Pipeline`). An LZ77 packer with
  12-bit offsets and 4-bit lengths, an exclusive-or cipher with a checksum, and a compact form of movement
  packets with a slow and a fast reader. Each is undone by its inverse, alone and as a pipeline; which matches the
  packer takes, and what the cipher makes of each byte, is stated on its own.
- **The referee** (`Teams`, `Referee`, `RefereeRuns`, `RefereeResults`, `RefereeEffects`, `RefereeVerdicts`, `Battleroom`,
  `GameMonitor`). A state machine over lobby and game events that numbers teams, freezes them at the start, puts off a
  win while a draw is possible, and latches one result. What each event does to each player is stated, and that the
  survivors decide the outcome.
- **Streams that arrive in pieces** (`Streams`, `Draining`, `GpgNet`, `GpgNetParse`, `DemoRecords`,
  `DemoContents`, `DemoParser`, `WholeDemo`).
  Two resumable readers and a resumable file parser; whatever pieces the bytes come in, the same items come out, up to
  a whole demo file.
- **Smaller parts** (`Crc32`, `Detection`, `DuplicateFilter`, `ReplayEscrow`, `ReplayRelease`, `ReplayServer`). The table-driven CRC against the
  bitwise division of section 8 of RFC 1952, the bucketed duplicate filter against a window of 128, and the
  delayed release of a live replay.

`Bytes`, `Keys` and `Wrappers` hold shared notions. `dafny verify dfyconfig.toml` checks everything.

## Where the code does not do what one might expect

These are properties that do not hold of the code as it is. Each has its exact condition.

- A fragment can be one byte larger than the largest packet known to pass (`Fragments.Oversized` says exactly
  when, `Fragments.OversizedExample` names one).
- Encrypting a packet of fewer than four bytes makes it a byte longer, and decrypting makes one of at most two bytes
  longer again (`Cipher.ComesThrough`).
- The compact form of movement packets does not carry their ticks or the end of the short ones; it is undone
  exactly when they are consecutive and end in the usual bytes (`SmartPaker.RoundTrip`; `SmartPaker.GapIsLost`
  has two movements that do not come back).
- Of a match longer than 17 bytes only the low four bits of the excess over two are copied, so that a match of 18 bytes is
  copied as two; the search also stops at the first window match of that length (`LzChoice.EveryMatchIsTaken`).
- The field of zeros before a player's address in a demo is not masked, but is unmasked (`WholeDemo.AddressReturns`).
- A demo record may be written that the reader refuses: empty ones, and those over 32766 bytes
  (`DemoRecords.RecordReturns`). Likewise the writer of commands does not check the reader's limits
  (`GpgNet.CommandExactly`).
- A player who joins before both names are set is left without a number, and the join ends with an exception
  (`RefereeRuns.JoinedKeepsExactly`).
- The branch of the referee that warns that a game "should not" become unfinished can be reached, but only after a
  result that was void, by a pair of allies who have fallen out since (`RefereeRuns.WarnsOnlyAfterVoid`,
  `Battleroom.WarningIsReachable`).
- A spectator who subscribes after a game was announced and before its first one-second tick is refused, but the
  file is opened all the same. An event is harmless, in that no run of other subscriptions after it can send what
  the delay forbids, exactly if it is not such a subscription to a game other than the one followed before
  (`ReplayEscrow.EscrowExactly`). The very next tick sends what the delay forbids exactly if the delay is not zero
  and the tick can send anything (`ReplayEscrow.EarlyTick`); a delay of zero may still be raised later.
  `ReplayEscrow.HastyIsReached` and `ReplayEscrow.EarlyIsNotHeldBack` make a run of four events.

## Model

| member | source | states |
|---|---|---|
| Session.InOrderExactlyOnce | libs/tafnet/TafnetNode.cpp:461-502 | in every run of two nodes over a network that loses, repeats and reorders, the messages handed out on each side are a prefix of the non-empty ones given on the other |
| Session.RunKeeps | libs/tafnet/TafnetNode.cpp:326-502 | the invariant of both directions (numbers, buffers, wire, acknowledgements, reassembly) holds along every run |
| Session.NextKeeps | libs/tafnet/TafnetNode.cpp:255-502 | every step of either node keeps the invariant |
| Session.ForwardKeeps | libs/tafnet/TafnetNode.cpp:645-681 | cutting and numbering a new message keeps it |
| Session.DeliverKeeps | libs/tafnet/TafnetNode.cpp:380-502 | delivery of any packet ever sent keeps it, whichever its action |
| Session.DrainKeeps | libs/tafnet/TafnetNode.cpp:472-489 | popping what is in order hands out exactly the messages whose fragments have become complete |
| Session.AwaitedIsKept | libs/tafnet/TafnetNode.cpp:61-96 | the fragment the receiver waits for is still in the sender's buffer with its own bytes |
| Session.EmptyMeansDone | libs/tafnet/TafnetNode.cpp:380-410 | when a send buffer is empty, every message given was handed out and nothing is half assembled |
| Schedules.DeliveredIsDone | libs/tafnet/TafnetNode.cpp:380-470 | if a fragment is on the wire, then after any steps, its delivery and any steps its acknowledgement can be delivered, and once it is, after any steps more the fragment is not in the send buffer |
| Schedules.RoundShrinks | libs/tafnet/TafnetNode.cpp:255-294 | whatever the order of steps, a round that starts with a due timer and in which what was resent is acknowledged leaves five fragments less, or none |
| Schedules.EveryScheduleCompletes | libs/tafnet/TafnetNode.cpp:255-294 | every schedule of such rounds, one for five fragments, empties the send buffer and hands out every message |
| Schedules.RoundExists | libs/tafnet/TafnetNode.cpp:255-294 | from every state that a run can reach there is such a round |
| Schedules.RoundsExist | libs/tafnet/TafnetNode.cpp:255-294 | and any number of them in a row |
| Recovery.NeverStuck | libs/tafnet/TafnetNode.cpp:255-294 | from every reachable state a run of at most three steps a fragment, timers and deliveries only, empties both send buffers and completes delivery |
| Recovery.OneFragment | libs/tafnet/TafnetNode.cpp:273-294 | a timeout, a delivery and the acknowledgement's delivery take the oldest fragment off the send buffer |
| Recovery.RunFlips | libs/tafnet/TafnetNode.cpp:326-524 | the protocol is the same seen from either side |
| Buffers.DataBuffer.constructor | libs/tafnet/TafnetNode.cpp:49-52 | a new buffer is empty and counts from one |
| Buffers.DataBuffer.Reset | libs/tafnet/TafnetNode.cpp:54-59 | back to the empty buffer |
| Buffers.DataBuffer.Insert | libs/tafnet/TafnetNode.cpp:61-67 | stores a fragment under its number unless that was popped before |
| Buffers.DataBuffer.PushBack | libs/tafnet/TafnetNode.cpp:69-73 | stores a fragment under the next number and answers it |
| Buffers.DataBuffer.Pop | libs/tafnet/TafnetNode.cpp:75-85 | takes the next fragment in order out of the buffer, or answers an empty one and changes nothing |
| Buffers.DataBuffer.AckData | libs/tafnet/TafnetNode.cpp:93-96 | forgets a fragment, and tells whether it was there |
| TafnetNode.Peer.constructor | libs/tafnet/TafnetNode.cpp:565-582 | a fresh peer, with the packet limit it was given |
| TafnetNode.Peer.ForwardGameData | libs/tafnet/TafnetNode.cpp:645-687 | buffers and sends the fragments of a message; an empty message sends nothing |
| TafnetNode.Peer.SendFragments | libs/tafnet/TafnetNode.cpp:664-680 | the loop numbers the pieces in order, all but the last as "more to come" |
| TafnetNode.Peer.OnDatagram | libs/tafnet/TafnetNode.cpp:371-502 | the answer, hand-out and new state for each kind of packet |
| TafnetNode.Peer.OnFragment | libs/tafnet/TafnetNode.cpp:461-502 | a fragment is stored, always acknowledged, drained, and gaps are asked for |
| TafnetNode.Peer.DrainInOrder | libs/tafnet/TafnetNode.cpp:472-489 | the reassembly loop equals the recursive specification |
| TafnetNode.Peer.AskForGaps | libs/tafnet/TafnetNode.cpp:491-501 | the smaller of ten and the number of fragments missing before the earliest one held: request number i is for the i-th number from the awaited one on |
| TafnetNode.Peer.OnResendTimer | libs/tafnet/TafnetNode.cpp:255-294 | the oldest fragments in the order of their numbers, each overdue; it ends at five, at the last one, or at one that is not overdue |
| TafnetNode.Peer.OnResendReqReenableTimer | libs/tafnet/TafnetNode.cpp:306-324 | gaps may be asked for again |
| TafnetNode.Peer.SendPacksizeTests | libs/tafnet/TafnetNode.cpp:689-713 | forgets the size found before and sends the ladder of probes |
| TafnetNode.ProbesAreSound | libs/tafnet/TafnetNode.cpp:412-446 | each probe passes the receiver's size and CRC checks exactly if it is within the receiver's limit |
| TafnetNode.RequestsExactly | libs/tafnet/TafnetNode.cpp:495-500 | the requests are for consecutive numbers from the first, as many as are missing or as may be sent |
| TafnetNode.ResentExactly | libs/tafnet/TafnetNode.cpp:268-293 | what the timer sends is the longest row of oldest and overdue fragments within the limit |
| Repairs.AsksExactly | libs/tafnet/TafnetNode.cpp:461-502 | in every reachable state a fragment is acknowledged, and the first missing numbers are asked for if and only if a gap is left and the node has not asked since the last progress or timer |
| Repairs.AsksForMissing | libs/tafnet/TafnetNode.cpp:491-501 | nothing is asked for that has arrived, and all that is asked for the sender still keeps |
| Repairs.AsksForAwaited | libs/tafnet/TafnetNode.cpp:491-501 | if the receiver asks at all, it asks for the fragment it waits for |
| Repairs.RequestIsAnswered | libs/tafnet/TafnetNode.cpp:388-410 | a request for a fragment that is kept puts exactly that fragment on the wire and changes nothing else |
| Repairs.GapCloses | libs/tafnet/TafnetNode.cpp:388-501 | after a delivery that leaves a gap, the request can be delivered and answered, and the answer takes the receiver on |
| Repairs.TimerAsksAgain | libs/tafnet/TafnetNode.cpp:306-324 | once the timer has allowed it, the next fragment that leaves a gap makes the receiver ask for the awaited one |
| Repairs.NotResentEarly | libs/tafnet/TafnetNode.cpp:255-294 | the fragments of a message are not resent before the timeout since they were first sent |
| Repairs.SizeWasAnswered | libs/tafnet/TafnetNode.cpp:412-459 | in every run the packet size is the lowest or one that the peer has answered, within the limits of both |
| Repairs.SizeOnlyRises | libs/tafnet/TafnetNode.cpp:448-459 | only new probing lowers the packet size, and an answer that arrives raises it to at least the size answered |
| Repairs.ProbeFinds | libs/tafnet/TafnetNode.cpp:412-459 | after probing, every size on the ladder within the limit of the peer is found as soon as its probe and the answer arrive |
| Repairs.DamagedProbeFails | libs/tafnet/TafnetNode.cpp:412-446 | a probe changed within four neighbouring bytes is not answered |
| Fragments.CutIsExact | libs/tafnet/TafnetNode.cpp:664-680 | pieces are non-empty, within the size, as few as possible, and concatenate to the message |
| Fragments.SizeBound | libs/tafnet/TafnetNode.cpp:657-662 | no fragment exceeds the larger of 250 and the lesser of P + 1 and the limit |
| Fragments.Oversized | libs/tafnet/TafnetNode.cpp:657-662 | when exactly a fragment size exceeds P |
| Fragments.OversizedExample | libs/tafnet/TafnetNode.cpp:657-662 | length 501 at P = 250 gives 251 |
| Fragments.CountKept | libs/tafnet/TafnetNode.cpp:657-662 | there are no more fragments than were planned for |
| Fragments.ProbesClimb | libs/tafnet/TafnetNode.cpp:699-711 | the probe sizes rise strictly, by a factor of at most 1.412, and end exactly at the limit |
| LzRoundTrip.RoundTrip | libs/tapacket/TPacket.cpp:54-205 | for every packet of three bytes or more, decompressing the compressed packet gives it back with byte 0 set to 3, the checksum bytes are kept, and compression never lengthens |
| LzRoundTrip.PackedReads | libs/tapacket/TPacket.cpp:154-205 | the decoder expands a packed stream to exactly the tokens in it, and stops at either form of terminator |
| LzRoundTrip.TokensDescribe | libs/tapacket/TPacket.cpp:54-126 | the tokens chosen describe the packet, also where a run overlaps its own output or a long match was masked to four bits |
| LzRoundTrip.BestMatchIsLongest | libs/tapacket/TPacket.cpp:82-109 | no window match and no run is longer than the one found, unless that is above 17 already |
| LzRoundTrip.WindowMatchStops | libs/tapacket/TPacket.cpp:85-89 | a match ends only where the bytes differ or the window or packet ends |
| LzRoundTrip.HeadersDoNotMatter | libs/tapacket/TPacket.cpp:154-205 | decompression gives the same body behind headers of any two sizes |
| LzRoundTrip.UnterminatedReads | libs/tapacket/TPacket.cpp:154-205 | a stream without its terminator is expanded all the same, and byte 0 tells if it ended inside a group |
| LzChoice.EveryMatchIsTaken | libs/tapacket/TPacket.cpp:61-126 | every token is a copy if and only if it stands from position 6 to 2000 and three bytes there agree with an earlier place; it copies from the first longest agreement, with the low four bits of a length above 17, and the tokens cover the packet |
| LzChoice.ChoiceExactly | libs/tapacket/TPacket.cpp:74-126 | the same of the choice at one position |
| LzChoice.ChosenIsUnique | libs/tapacket/TPacket.cpp:82-109 | at no position is there more than one choice that fits this description |
| LzChoice.WindowExactly | libs/tapacket/TPacket.cpp:85-89 | the window loop finds exactly how far two places agree |
| LzChoice.EqualBytesShrink | libs/tapacket/TPacket.cpp:54-147 | the exact compressed size of a packet of equal bytes, about an eighth of its length |
| Lz.Search | libs/tapacket/TPacket.cpp:82-109 | the search loop finds the specified match |
| Lz.MatchLength | libs/tapacket/TPacket.cpp:85-89 | length of a window match |
| Lz.RunLength | libs/tapacket/TPacket.cpp:100-104 | length of a run that overlaps its own output |
| Lz.PackTokens | libs/tapacket/TPacket.cpp:61-135 | packing as a loop that patches control bytes equals the packed form of the tokens |
| Lz.Compress | libs/tapacket/TPacket.cpp:54-147 | the program's compressor equals the specification |
| Lz.Decompress | libs/tapacket/TPacket.cpp:154-205 | the program's decompressor equals the specification |
| Cipher.RoundTrip | libs/tapacket/TPacket.cpp:16-52 | behind any prefix decryption gives the packet back, and the checksum found equals the one calculated |
| Cipher.ComesThrough | libs/tapacket/TPacket.cpp:16-52 | length and content survive exactly for packets of four bytes or more |
| Cipher.EncryptedExactly | libs/tapacket/TPacket.cpp:36-52 | the key of every byte and the checksum, without the loop |
| Cipher.Encrypt | libs/tapacket/TPacket.cpp:36-52 | each byte but the first three and the last three is xor-ed with its position, the second and third byte hold the 16-bit sum of the changed bytes, the others stay |
| Cipher.Decrypt | libs/tapacket/TPacket.cpp:16-34 | the same keys from an offset on, the checksum stored and the sum of the bytes as they came |
| Smartpak.BodiesAgree | libs/tapacket/TPacket.cpp:435-567 | both readers see the same body, whichever way they treat timestamp and checksum |
| Smartpak.SlowUnsmartpak | libs/tapacket/TPacket.cpp:435-501 | the slow reader returns the specified subpackets of every well-formed packet |
| Smartpak.Unsmartpak | libs/tapacket/TPacket.cpp:503-567 | the fast reader returns the same list for all flags, and nothing for a packet that ends within its header |
| Smartpak.AloneExactly | libs/tapacket/TPacket.cpp:503-567 | a body is read as one subpacket, itself, if and only if it is no movement form and of the size expected of it |
| Smartpak.Measure | libs/tapacket/TPacket.cpp:271-358 | the size expected of a subpacket, zeros being counted one by one |
| Smartpak.Split | libs/tapacket/TPacket.cpp:362-397 | takes off exactly the first subpacket, and tells when its size is unknown |
| Smartpak.FastStep | libs/tapacket/TPacket.cpp:524-564 | one turn of the fast reader's pointer loop |
| Smartpak.FirstEnd | libs/tapacket/TPacket.cpp:271-397 | a first subpacket is never empty and never longer than what is there |
| SmartPaker.RoundTrip | libs/tapacket/TPacket.cpp:503-607 | the encoded packet always unpacks, and to the original list if and only if the movements are in step |
| SmartPaker.GapIsLost | libs/tapacket/TPacket.cpp:581-607 | two movements at ticks five and seven do not come back |
| SmartPaker.StandsAlone | libs/tapacket/TPacket.cpp:271-358 | plain subpackets and full movements are read as they stand |
| SmartPaker.Paker.Pak | libs/tapacket/TPacket.cpp:581-607 | one subpacket encoded, and the first-movement flag updated |
| SmartPaker.FilterMoves | libs/tareplay/TaDemoCompilerClient.cpp:272-337 | the recorder's loop builds a leading 3 and the encoding of all subpackets |
| SmartPaker.ConcatUnpacks | libs/tapacket/TPacket.cpp:524-564 | subpackets that delimit themselves are read back one after the other |
| Pipeline.WholeWay | libs/tapacket/TPacket.cpp:569-575 | header, compression and encryption are undone behind any prefix, and the checksums agree |
| Pipeline.LivePacket | libs/tapacket/TAPacketParser.cpp:233-259 | for every readable body the receiver's checksums agree and it reports what unpacking the body gives: the body itself if and only if that stands alone |
| Pipeline.StatusRecord | libs/tapacket/TADemoParser.cpp:163-176 | the status in a demo record is read back behind its player number |
| Pipeline.Send | libs/tafnet/TafnetGameNode.cpp:490-493 | the three stages in the sender's order |
| Pipeline.Receive | libs/tapacket/TAPacketParser.cpp:233-259 | the receiver's stages: checksum, decompression, splitting; also for a packet so short that it is only padded |
| Teams.NumberedIsRight | apps/gpgnet4ta/GameMonitor2.cpp:767-807 | live players get armies in id order, consecutive teams from two, each made of its lowest id and mutual allies of that player; nothing else changes |
| Teams.TeamsAreAlliances | apps/gpgnet4ta/GameMonitor2.cpp:683-807 | where mutual alliance is transitive, two live players share a team exactly if they are allies |
| RefereeRuns.NextKeeps | apps/gpgnet4ta/GameMonitor2.cpp:160-625 | every handler keeps the invariant: ids are keys, allies are known players, survivors were frozen with an army and a team of two or more, and the outcome is justified |
| RefereeRuns.NextIsKeyed | apps/gpgnet4ta/GameMonitor2.cpp:160-625 | whether the names are set or not, ids stay keys, allies known players and, after the start, the keys those of the frozen players, so that no lookup fails |
| RefereeRuns.JoinedKeepsExactly | apps/gpgnet4ta/GameMonitor2.cpp:160-222 | a join keeps the invariant if and only if it does not end with an exception on a new player |
| RefereeRuns.CheckMeans | apps/gpgnet4ta/GameMonitor2.cpp:842-887 | a verdict of 0 means nobody is left, a positive one that all survivors were frozen in that one team of at least two |
| RefereeRuns.FinishedStaysFinished | apps/gpgnet4ta/GameMonitor2.cpp:614-624 | in every run, once an end tick is set the game is over in each state until the result is latched |
| RefereeRuns.WarnsOnlyAfterVoid | apps/gpgnet4ta/GameMonitor2.cpp:614-622 | the "should not be possible" branch is taken if and only if the end tick has come, the result was void and the survivors are split both ways |
| RefereeRuns.EndTickLatches | apps/gpgnet4ta/GameMonitor2.cpp:614-624 | when the end tick comes a result is latched |
| RefereeRuns.ResultIsFinal | apps/gpgnet4ta/GameMonitor2.cpp:918-965 | between resets a latched status, its scores and the notification never change |
| RefereeResults.ToldExactly | apps/gpgnet4ta/GameMonitor2.cpp:918-965 | in every run the handler has been told since the last reset if and only if the result is ready: once, of that result |
| RefereeRuns.ReadyIsRight | apps/gpgnet4ta/GameMonitor2.cpp:918-965 | in every later state a ready result lists every army that started, as all 0 with nobody alive or as +1 for one team and -1 for the others, with no survivor of another team |
| RefereeResults.LatchIsRight | apps/gpgnet4ta/GameMonitor2.cpp:918-965 | whatever event makes a result ready: then it is all 0 and nobody is alive, or there are survivors, all of one frozen team of at least two, and it is +1 for exactly that team |
| RefereeResults.ReadyWasRight | apps/gpgnet4ta/GameMonitor2.cpp:918-965 | in every run a ready result was right in that sense when it was latched, and has not changed or been reset since |
| RefereeResults.OneEntryEach | apps/gpgnet4ta/GameMonitor2.cpp:935-962 | in every run a ready result has as many entries as armies were counted, with strictly ascending army numbers |
| RefereeRuns.OverAtStartIsVoid | apps/gpgnet4ta/GameMonitor2.cpp:591-607 | a game already over when the teams freeze is void and nobody is told; any other is open |
| RefereeRuns.WinIsDeferred | apps/gpgnet4ta/GameMonitor2.cpp:500-521 | a death that leaves one team latches nothing, and sets the end tick to the most recent tick plus the draw ticks, unless one was set before |
| RefereeRuns.LastDeathIsDraw | apps/gpgnet4ta/GameMonitor2.cpp:500-521 | the last survivor's death makes a draw, also when a win was due |
| RefereeRuns.MostRecentIsMax | apps/gpgnet4ta/GameMonitor2.cpp:653-664 | the most recent tick is the maximum of the players' ticks |
| RefereeEffects.EffectsExactly | apps/gpgnet4ta/GameMonitor2.cpp:160-625 | what every event does to every player and to every pair of players: who comes and goes, who dies, who watches, who is allied with whom, picks, slots, names and ticks; all else is left alone |
| RefereeEffects.SurvivorsAfter | apps/gpgnet4ta/GameMonitor2.cpp:160-625 | who is alive after each event |
| RefereeEffects.MonitorExactly | apps/gpgnet4ta/GameMonitor2.cpp:160-625 | what every event does to the start, the frozen players, the known players, the map, the unit limit and the names |
| RefereeEffects.DeadExactly | apps/gpgnet4ta/GameMonitor2.cpp:490-574 | in every run a player is dead if and only if, since it came, its commander died or it was rejected in the game |
| RefereeVerdicts.SurvivorsDecide | apps/gpgnet4ta/GameMonitor2.cpp:224-625 | after every event of a game under way the survivors decide: nobody left is a draw, one frozen team left has won, at once or with an end tick, a team agreed on since makes the game void, anything else goes on; results carry the real names known |
| RefereeVerdicts.RejectionDecides | apps/gpgnet4ta/GameMonitor2.cpp:525-574 | a rejection in the game takes out the one who is rejected and changes nobody else, and what the survivors then win is latched at once |
| RefereeVerdicts.EndTickExactly | apps/gpgnet4ta/GameMonitor2.cpp:609-625 | a win that waits is given by a tick if and only if that brings the most recent tick to the end tick |
| RefereeVerdicts.NoneIsMissed | apps/gpgnet4ta/GameMonitor2.cpp:160-625 | in every run a started game without a result has survivors, who have not agreed on a draw, and an end tick if and only if they are of one frozen team |
| RefereeVerdicts.SurvivorsDecideInRuns | apps/gpgnet4ta/GameMonitor2.cpp:160-625 | in every run the survivors decide the next outcome |
| Battleroom.BattleroomTeams | apps/gpgnet4ta/GameMonitor2.cpp:435-488 | in every run without alliances made by hand, live and frozen teams are exactly the groups that picked the same number below five |
| Battleroom.WarningIsReachable | apps/gpgnet4ta/GameMonitor2.cpp:614-622 | a run of six events after which one more tick takes the warning branch |
| GameMonitor.GameMonitor.constructor | apps/gpgnet4ta/GameMonitor2.cpp:59-69 | a new monitor, without names |
| GameMonitor.GameMonitor.SetHostPlayerName | apps/gpgnet4ta/GameMonitor2.cpp:71-74 | the host's name is set and the invariant stays |
| GameMonitor.GameMonitor.SetLocalPlayerName | apps/gpgnet4ta/GameMonitor2.cpp:76-79 | so is the local player's |
| GameMonitor.GameMonitor.UpdatePlayerArmies | apps/gpgnet4ta/GameMonitor2.cpp:767-807 | the two loops number the players as specified |
| GameMonitor.GameMonitor.GetMutualAllies | apps/gpgnet4ta/GameMonitor2.cpp:683-698 | the players allied with this one in both directions |
| GameMonitor.GameMonitor.GetMostRecentGameTick | apps/gpgnet4ta/GameMonitor2.cpp:653-664 | loop over the players' ticks |
| GameMonitor.GameMonitor.GetActivePlayers | apps/gpgnet4ta/GameMonitor2.cpp:640-651 | players who neither died nor watch |
| GameMonitor.GameMonitor.IsPlayersAllAllied | apps/gpgnet4ta/GameMonitor2.cpp:889-902 | whether all have the team number of the first |
| GameMonitor.GameMonitor.CheckEndGameCondition | apps/gpgnet4ta/GameMonitor2.cpp:842-887 | the verdict |
| GameMonitor.GameMonitor.LatchEndGameTick | apps/gpgnet4ta/GameMonitor2.cpp:904-916 | sets an end tick once, and never to zero |
| GameMonitor.GameMonitor.LatchEndGameResult | apps/gpgnet4ta/GameMonitor2.cpp:918-965 | latches once, with the entries of the frozen armies in id order |
| GameMonitor.GameMonitor.OnJoin | apps/gpgnet4ta/GameMonitor2.cpp:160-222 | a player turns up before the start, or the join ends with an exception half way, and exactly when |
| GameMonitor.GameMonitor.OnLeave | apps/gpgnet4ta/GameMonitor2.cpp:224-254 | a player leaves: forgotten before the start, a reason to latch after it |
| GameMonitor.GameMonitor.OnStatus | apps/gpgnet4ta/GameMonitor2.cpp:324-357 | side, watching, slot, and the host's map and unit limit |
| GameMonitor.GameMonitor.OnChatAlliance | apps/gpgnet4ta/GameMonitor2.cpp:359-386 | an alliance line of chat between two known players |
| GameMonitor.GameMonitor.OnAlliance | apps/gpgnet4ta/GameMonitor2.cpp:388-433 | an alliance packet; only a change renumbers |
| GameMonitor.GameMonitor.OnTeamSelection | apps/gpgnet4ta/GameMonitor2.cpp:435-488 | a pick allies and separates in both directions |
| GameMonitor.GameMonitor.OnUnitDied | apps/gpgnet4ta/GameMonitor2.cpp:490-523 | a commander's death, and the verdict it leads to |
| GameMonitor.GameMonitor.OnRejectOther | apps/gpgnet4ta/GameMonitor2.cpp:525-574 | a rejection drops the rejected player before the start and kills it after, by whoever it was rejected |
| GameMonitor.GameMonitor.OnGameTick | apps/gpgnet4ta/GameMonitor2.cpp:576-625 | start, progress and end by ticks, and whether the warning was given |
| GameMonitor.GameMonitor.SetPlayerRealName | apps/gpgnet4ta/GameMonitor2.cpp:81-84 | a real name for later results |
| GameMonitor.GameMonitor.Clear | apps/gpgnet4ta/GameMonitor2.cpp:127-135 | the reset, which leaves the frozen players and the launch flag |
| GpgNet.CommandReturns | libs/gpgnet/GpgNetParse.cpp:85-134 | a written command within the limits decodes to itself, whatever follows |
| GpgNet.CommandGrows | libs/gpgnet/GpgNetParse.cpp:85-134 | bytes that arrive later do not change what was decoded or refused |
| GpgNet.CommandExactly | libs/gpgnet/GpgNetParse.cpp:72-134 | of the commands whose fields fit 32 bits exactly those within the limits decode to themselves; all others are refused |
| GpgNet.CommandWasWritten | libs/gpgnet/GpgNetParse.cpp:72-134 | a command is decoded if and only if the bytes start with its own written form and it keeps the limits |
| GpgNet.SentIsReceived | libs/gpgnet/GpgNetParse.cpp:27-142 | commands sent one after the other come back in order and complete under any chunking |
| GpgNet.GpgNetSend.SendCommand | libs/gpgnet/GpgNetSend.cpp:10-13 | name and declared count are appended |
| GpgNet.GpgNetSend.SendArgument | libs/gpgnet/GpgNetSend.cpp:15-25 | a typed byte array is appended |
| GpgNet.GpgNetSend.SendIntArgument | libs/gpgnet/GpgNetSend.cpp:27-30 | a typed number is appended, negative ones in two's complement |
| GpgNetParse.GpgNetParse.GetCommand | libs/gpgnet/GpgNetParse.cpp:85-134 | resumed with more bytes it answers as if it had had all of them at once; no byte is read twice or skipped |
| GpgNetParse.GpgNetParse.GetArguments | libs/gpgnet/GpgNetParse.cpp:103-129 | arguments read before answer again without reading; the last goes on where it stopped |
| GpgNetParse.FillArray | libs/gpgnet/GpgNetParse.cpp:72-83 | a size and its data, resumably |
| GpgNetParse.Fill | libs/gpgnet/GpgNetParse.cpp:27-44 | a buffer filled as far as there are bytes |
| GpgNetParse.GpgNetParse.OnReadyRead | libs/gpgnet/GpgNetClient.cpp:43-103 | the socket's loop takes exactly the commands that draining all bytes so far gives |
| Draining.ChunksDoNotMatter | libs/gpgnet/GpgNetParse.cpp:27-142 | for any decoder that later bytes do not confuse, draining chunk by chunk equals draining the whole |
| DemoRecords.RecordReturns | libs/tapacket/TADemoWriter.cpp:17-26 | of the records the writer accepts, exactly those of 1 to 32766 bytes are read again; others are refused |
| DemoRecords.WrittenRecordsAreRead | libs/tapacket/TADemoParser.cpp:17-78 | written records are read in order under any chunking |
| DemoRecords.PacketReturns | libs/tapacket/TADemoWriter.cpp:75-82 | time, sender and data survive |
| DemoRecords.PacketIsUnique | libs/tapacket/TADemoParser.cpp:183-189 | and every body of three bytes or more is one packet's only |
| DemoRecords.TADemoWriter.WriteRecord | libs/tapacket/TADemoWriter.cpp:17-26 | a record whose length does not fit 16 bits is refused and not written |
| DemoRecords.TADemoWriter.WritePacket | libs/tapacket/TADemoWriter.cpp:75-82 | a packet's fields as one record, refused when too long |
| DemoRecords.TADemoWriter.WriteHeader | libs/tapacket/TADemoWriter.cpp:28-37 | the header as one record, the name cut to 64 bytes |
| DemoRecords.TADemoWriter.WriteExtraHeader | libs/tapacket/TADemoWriter.cpp:39-42 | the number of sectors as one record |
| DemoRecords.TADemoWriter.WriteSector | libs/tapacket/TADemoWriter.cpp:44-50 | a sector as one record, refused when too long |
| DemoRecords.TADemoWriter.WritePlayer | libs/tapacket/TADemoWriter.cpp:52-60 | a player as one record, the name cut to 16 bytes |
| DemoRecords.TADemoWriter.WriteStatus | libs/tapacket/TADemoWriter.cpp:62-68 | a status behind its number as one record, refused when too long |
| DemoRecords.TADemoWriter.WriteUnitData | libs/tapacket/TADemoWriter.cpp:70-73 | the unit data as one record, refused when too long |
| DemoRecords.RecordReader.Read | libs/tapacket/TADemoParser.cpp:17-78 | the three-state reader answers as decoding all bytes since the last record would |
| DemoParser.HeaderReturns | libs/tapacket/TADemoParser.cpp:83-133 | an acceptable header written is the header loaded |
| DemoParser.GoesOnLater | libs/tapacket/TADemoParser.cpp:223-287 | parsing what there is and the rest later hands over the same as parsing all at once |
| DemoParser.BudgetsAdd | libs/tapacket/TADemoParser.cpp:274-286 | so does taking a limited number of packets first |
| DemoParser.GrowingFile | libs/tapacket/TADemoParser.cpp:191-287 | a file that grows in any pieces is handed over as the finished one would be |
| DemoParser.PacketsReturn | libs/tapacket/TADemoParser.cpp:274-286 | packets written are handed over with their fields and unpacked moves, numbered in order |
| DemoParser.MovesReturn | libs/tareplay/TaDemoCompilerClient.cpp:272-337 | from the recorder's loop through the file to the parser: every packet comes back in order with time and sender, and with the same subpackets if and only if its movements are in step |
| WholeDemo.DemoReturns | libs/tapacket/TADemoParser.cpp:223-287 | a demo file with header, sectors, players, statuses, unit data and packets parses to exactly these, in order, with all their fields |
| WholeDemo.GrowingDemoReturns | libs/tapacket/TADemoParser.cpp:191-287 | the same in whatever pieces the file grows |
| WholeDemo.SectorReturns | libs/tapacket/TADemoParser.cpp:147-152 | a sector is handed over with its kind and data, an address unmasked |
| WholeDemo.AddressReturns | libs/tareplay/TaDemoCompiler.cpp:429-443 | a masked address comes back with the zero that ends it, and the zeros before it as the mask |
| WholeDemo.PlayerReturns | libs/tapacket/TADemoParser.cpp:154-161 | a player is handed over with colour, side, number and the name cut to 16 bytes |
| WholeDemo.NameEnds | libs/tapacket/TADemoParser.cpp:154-161 | a name that is read ends at the first zero |
| WholeDemo.MoveEventMeans | libs/tapacket/TADemoParser.cpp:274-286 | a packet has its time and sender, and its subpackets if and only if its movements are in step |
| DemoContents.StatusReturns | libs/tapacket/TADemoParser.cpp:163-176 | a recorded status is loaded with its number, its bytes and the player's id inside it |
| DemoContents.FilteredReturn | libs/tapacket/TADemoParser.cpp:280-284 | the recorder's packets are always read, and give the same subpackets if and only if their movements are in step |
| DemoContents.ReadStatusBody | libs/tapacket/TADemoParser.cpp:163-176 | decryption at offset one, decompression and removal of the header, with the player's id |
| DemoContents.ReadMoves | libs/tapacket/TADemoParser.cpp:280-284 | the fast reader without checksum, with a timestamp in the oldest demos |
| DemoParser.DemoParser.DoParse | libs/tapacket/TADemoParser.cpp:223-287 | the nested loops with their counters equal a flat walk over the records from the state reached before |
| DemoParser.DemoParser.ReadPackets | libs/tapacket/TADemoParser.cpp:274-286 | the packet loop with its budget |
| Crc32.Crc32.FullCRC | libs/taflib/nswfl_crc32.cpp:129-136 | the table-driven CRC equals the reflected bitwise division |
| Crc32.Crc32.PartialCRC | libs/taflib/nswfl_crc32.cpp:99-122 | a byte at a time by table equals eight division steps a byte |
| Crc32.Crc32.Initialize | libs/taflib/nswfl_crc32.cpp:47-67 | the nested loops build the table of all 256 bytes |
| Crc32.Reflect | libs/taflib/nswfl_crc32.cpp:75-90 | reverses the low bits of a word |
| Crc32.EntryIsSteps | libs/taflib/nswfl_crc32.cpp:47-67 | reflecting, shifting and reflecting again is eight division steps |
| Crc32.ByteAtOnce | libs/taflib/nswfl_crc32.cpp:115-122 | eight steps on a register depend on its low byte by one table entry |
| Crc32.StepsReflect | libs/taflib/nswfl_crc32.cpp:47-67 | division from the highest bit is the mirror of division from the lowest |
| Crc32.DividedInParts | libs/taflib/nswfl_crc32.cpp:115-122 | splitting the input changes nothing |
| Detection.BurstShows | libs/taflib/nswfl_crc32.cpp:99-113 | strings that differ within at most four neighbouring bytes leave different registers |
| Detection.CrcShows | libs/taflib/nswfl_crc32.cpp:129-136 | and have different checksums |
| Detection.DividedAtOnce | libs/taflib/nswfl_crc32.cpp:99-113 | dividing byte by byte equals dividing all the bytes as one number |
| Detection.StepIsInjective | libs/taflib/nswfl_crc32.cpp:47-67 | no two registers become the same in a division step |
| DuplicateFilter.DuplicateDetection.IsLikelyDuplicate | libs/taflib/DuplicateDetection.cpp:9-29 | true exactly if the fingerprint is among the last 128 accepted; the buckets always hold the queue's entries, which are distinct |
| DuplicateFilter.DuplicateDetection.Insert | libs/taflib/DuplicateDetection.cpp:31-41 | one bucket changes, by this entry |
| DuplicateFilter.DuplicateDetection.Expire | libs/taflib/DuplicateDetection.cpp:20-27 | the oldest entries go until 128 are left |
| DuplicateFilter.WindowOverHistory | libs/taflib/DuplicateDetection.cpp:9-29 | over any history from an empty queue the window is the last 128 accepted, each once |
| DuplicateFilter.WindowIsLastAccepted | libs/taflib/DuplicateDetection.cpp:9-29 | one packet more slides the window over what is accepted |
| DuplicateFilter.RepeatsAreCaught | libs/taflib/DuplicateDetection.cpp:9-29 | a repeat is caught until 128 others were accepted, and not after |
| DuplicateFilter.DataShows | libs/taflib/DuplicateDetection.cpp:9-18 | a packet that differs from another within four neighbouring bytes has another fingerprint |
| DuplicateFilter.IdsShow | libs/taflib/DuplicateDetection.cpp:9-18 | and so has the same packet from or for somebody else |
| ReplayEscrow.EscrowHolds | libs/tareplay/TaReplayServer.cpp:283-376 | in every run without an early subscription to another game, also when delays change, every tick sends of a live game only what was in the file `delay` ticks before |
| ReplayEscrow.EscrowExactly | libs/tareplay/TaReplayServer.cpp:162-376 | an event after which no run of timely subscriptions can break the escrow is exactly one that is not an early subscription to another game |
| ReplayEscrow.EarlyTick | libs/tareplay/TaReplayServer.cpp:189-376 | the first tick after an early subscription keeps the escrow if and only if the delay is zero or the tick can send nothing |
| ReplayEscrow.TimerKeepsEscrow | libs/tareplay/TaReplayServer.cpp:283-376 | one tick from any sound state keeps it |
| ReplayEscrow.BoundUnlessEarly | libs/tareplay/TaReplayServer.cpp:162-208 | a step leaves the user's file and game together if and only if it is not an early subscription to another game |
| ReplayEscrow.HastyIsReached | libs/tareplay/TaReplayServer.cpp:64-79 | a file and the announcement of its game with a delay of 300 lead to the state that the next row starts from |
| ReplayEscrow.EarlyIsNotHeldBack | libs/tareplay/TaReplayServer.cpp:189-197 | from it a subscription and a tick send the file with no delay |
| ReplayEscrow.FrontNeverFalls | libs/tareplay/TaReplayServer.cpp:304-311 | the front of the size log never falls |
| ReplayEscrow.SentIsSlice | libs/tareplay/TaReplayServer.cpp:357-377 | a tick's chunks are one slice of the file up to the threshold, and only a full socket holds back more |
| ReplayEscrow.NextIsSound | libs/tareplay/TaReplayServer.cpp:134-376 | every event keeps the logs true and a subscription's data one contiguous slice of its file |
| ReplayEscrow.HiddenSendsNothing | libs/tareplay/TaReplayServer.cpp:337-354 | a negative delay sends nothing |
| ReplayRelease.SubscriptionStarts | libs/tareplay/TaReplayServer.cpp:162-208 | a subscription starts at the position asked for, or where the file ended at the oldest tick of a log that covers the delay if that is less; with a shorter log it starts at the head |
| ReplayRelease.SentFromPosition | libs/tareplay/TaReplayServer.cpp:199-377 | until the next subscription, whatever happens, a client that asked for a released position is sent the file from exactly there |
| ReplayRelease.ReleasedInEveryRun | libs/tareplay/TaReplayServer.cpp:283-377 | in every timely run in which the delay stands, each tick sends what the file had `delay` ticks before, no more and, but for a full socket, no less |
| ReplayRelease.TickReleases | libs/tareplay/TaReplayServer.cpp:283-377 | the same of one tick |
| ReplayRelease.EndedIsServed | libs/tareplay/TaReplayServer.cpp:346-377 | of a game that has ended a tick sends the next bytes up to the limit or the end of the file |
| ReplayRelease.RefusedExactly | libs/tareplay/TaReplayServer.cpp:159-197 | a request from the start is refused if and only if the game cannot be followed, with the status that says why |
| ReplayRelease.GoingOnIsQuiet | libs/tareplay/TaReplayServer.cpp:159-197 | a request from a later position is answered only if the game is unknown or not shown |
| ReplayRelease.RefusedLeaves | libs/tareplay/TaReplayServer.cpp:159-197 | what a refused subscription leaves of the one before |
| ReplayServer.GameInfo.UpdateFileSizeLog | libs/tareplay/TaReplayServer.cpp:283-312 | logs the size and trims the log to the delay |
| ReplayServer.UserContext.ServiceUser | libs/tareplay/TaReplayServer.cpp:314-383 | the send loop ends, and sends exactly the specified chunks as commands |
| ReplayServer.UserContext.Subscribe | libs/tareplay/TaReplayServer.cpp:159-211 | where a subscription starts reading, what a refused one leaves behind, and the status it is answered with |
| ReplayServer.ServedIsReceived | libs/tareplay/TaReplayServer.cpp:357-377 | what a tick sends is what the client parses, chunk for chunk, and joins up to the slice of the file |
| ReplayServer.ClientGetsChunks | libs/tareplay/TaReplayServer.cpp:249-254 | a client that parses its socket in any pieces gets the chunks that were sent |

## Left out

- Sockets, Qt signals, clocks, logging, watchdogs and exception wrappers: a timer is a step that may happen, the time is an input.
- Reconnecting: packets carry no session id, so the delivery theorem is about one session from its connection on.
- Sequence numbers that wrap: a session numbers fewer than 2^32 fragments in each direction.
- Messages with actions below 5, which are sent unnumbered and handed out as they come.
- Ping statistics, the adaptive number of repeats and the dead-peer timeout: they only add duplicates and vary the timeout, which the session allows for.
- Packet headers as bytes: a packet is its action, number and data.
- Recovery.NeverStuck: shows that a completing run exists from every reachable state; `Schedules` has the for-all form. That the network will one day deliver is an assumption about the network.
- Malformed input to the codec: truncated movement subpackets, unterminated chat and reads past the end are excluded by preconditions.
- Cipher.Decrypt: for packets too short to carry a checksum the program leaves its two outputs as they were; the model passes the values before as arguments.
- TafnetNode.Peer.SendPacksizeTests: asks for a limit of 250 or more; with a lower one the program reads past the end of its test buffer.
- RefereeRuns.NextKeeps: leaves out joins that end with an exception on a new player, after which the invariant does not hold (`RefereeRuns.JoinedKeepsExactly`); what holds all the same is in `RefereeRuns.NextIsKeyed`.
- Pipeline.Receive: asks for a body that can be read to its end, and for a compressed packet to have its header.
- GameMonitor.GameMonitor.OnChatAlliance: does not match chat text, it starts from the two players and the kind of line.
- GameMonitor.GameMonitor.OnUnitDied: asks for a known unit limit, which the program leaves unset until the host's status has come.
- Notifications of the referee other than the end of the game: player statuses, cleared slots, settings, start.
- Looking up a real name for a result stores an empty one for unknown players; the model leaves the names as they are, which no result can tell.
- GpgNetParse.GpgNetParse.GetCommand: an argument's type and value reader are kept in one slot instead of two vectors, and readers are values in the parser's fields.
- The dispatch of subpackets to the referee's events; a status for a slot of ten or more is not passed on.
- WholeDemo.DemoReturns: is about demos of versions four and five; packets of version three have timestamps, which no writer in the repository makes.
- Text encodings: names and arguments are bytes; a null command name is not modelled.
- DemoParser.DemoParser.DoParse: records that the program would read past their end are refused: an extra header of fewer than four bytes, a status without a player's id, moves that are cut short.
- ReplayServer.GameInfo.UpdateFileSizeLog: asks for a delay of -1 or more; with a lower one the program takes elements off an empty queue.
- The replay server's sockets: how much the socket still has to write only shrinks between ticks; one user is modelled, as users do not affect each other.
- DirectPlay structures, address translation, chat and IRC, launching, the lobby client and the replayer: foreign protocols and plumbing.
- Field accessors of typed subpackets: copies of fields.
