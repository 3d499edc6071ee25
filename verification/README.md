# Verification of the LZMA decoder, the sensor claim protocol, the cooling device and the energy meter

A Dafny project beside the sources. `dafny verify dfyconfig.toml` checks all of it.

**LZMA decoder** (`thermal_daemon/src/LzmaDec.c`)

- `Wrappers`: a value that may be missing.
- `LzmaBits`: 32-bit words, `&` and `^`, powers of two.
- `LzmaRange`: the range coder registers, one adaptive bit, one direct bit, one normalisation; how
  much input they can need.
- `LzmaCoding`: a range encoder, as the inverse of the coder.
- `LzmaSymbol`: one symbol as a graph of yes/no decisions over the packed probability table. `Run`
  walks it with updates, `DryRun` without.
- `LzmaStream`: what symbols mean for output and recent distances (`Apply`, `Flush`), decoding up to
  a limit (`Decode`), and calls with pieces of input (`Feed`).
- `LzmaFormat`: an independent reference in the manner of the LZMA specification by Igor Pavlov (draft,
  parts on the range decoder, the bit-tree decoders and the main loop): a separate tree per role,
  bit trees and reverse trees by recursion, normalisation after every bit, matches copied at once.
- `LzmaRangeDecoder`, `LzmaDec`: the code itself, as classes over arrays with the loops of the
  source, proved against `LzmaSymbol` and `LzmaStream`. `LzmaEntry` joins the ends: what the entry
  point delivers is what the reference unpacks.

**Sensor claims** (`iio-sensor-proxy.c`, `drv-mxc6655-accel.c`)

- `SensorProxy`: the claim protocol as a transition system with a log of replies.
- `SensorData`: the event handlers as methods that refine it, with the dual-accelerometer driver
  plugged in, which reports from within `set_polling`.
- `Mxc6655`: that driver: tablet mode by the history of hinge angles, orientation debouncing against
  the most recent run of six equal samples, forced landscape, timer and lid.

**Cooling device and energy meter** (`thd_cdev.cpp`, `thd_cdev.h`, `thd_rapl_power_meter.cpp`)

- `Cdev`: limit arbitration between trips and the exponential controller in 32-bit arithmetic.
- `Rapl`: a wrapping counter unrolled into a total, against the true energy.

Results that differ from what the source says or seems to intend:

- The comment at `thermal_daemon/src/thd_cdev.cpp:249-257` says that an "off" call removes the limit
  of its zone. The code removes it only when it is the last entry; `OffRemovesOnlyLast` gives the
  exact condition, `OffCanBeIgnored` an example.
- A target on a device whose range runs downward (`min_state > max_state`) always commands
  `min_state` (`RawExact`, `StrongestFits`), and so does a hard target, which is meant to command
  `max_state` (`SetState`).
- A boost whose power wraps in 32 bits stays in range with `inc_val` but can weaken the cooling from
  one call to the next; `BoostWeakens` and `RunWeakens` say exactly when, `SmallStepsNeverWeaken` and
  `BoostCanFall` that 4096 is the smallest step for which it happens.
- Without `inc_val`, the default, nothing guards the wrap, and a run of activations can command a
  state outside the range. `UnguardedExact` gives the exact condition for every range and step,
  `UnguardedRun` the simple one for states counted from zero, `FallbackUnguarded` a run that leaves
  its range. The default step of 1 is safe if 2^20 more than the first state fits an int.
- An "on" call within the debounce interval enters its target in the list without acting on it
  (`SetState` says exactly when this leaves the device short of the strongest target).
- An energy range that could not be read with the first counter value leads to a phantom wrap
  (`LateRange`).
- A direct bit may leave `code == range` (`DirectCodeBelowRange`), so no result relies on
  `code < range`.

Inputs from outside are parameters: what a file or the kernel answers, the time, authorisation,
watch and timer numbers, whether a driver wants and opens a device, the orientation and the hinge
angle of a sample. Replies, signals and readings are ghost logs.

## Model

| member | source | states |
|---|---|---|
| `LzmaEntry.OneCallIsFormat` | thermal_daemon/src/LzmaDec.c:1168-1190 | for every input, limit and finish mode LzmaDecode delivers exactly the bytes that the plain reference decoder of the format unpacks from the same stream, with the same status and use of the input, and a data error if and only if the first byte is non-zero or the reference finds the stream corrupt |
| `LzmaEntry.HeaderBigEndian` | thermal_daemon/src/LzmaDec.c:900-904 | the first code is the number of the four header bytes, most significant first |
| `LzmaEntry.WindowLittleEndian` | thermal_daemon/src/LzmaDec.c:1094 | the window size has its least significant byte first |
| `LzmaEntry.EncodedStream` | thermal_daemon/src/LzmaDec.c:889-920 | a zero byte and the output of the encoder start the decoder on exactly the coder for which the bits are read back |
| `LzmaFormat.FeedIsUnpack` | thermal_daemon/src/LzmaDec.c:881-1025 | one call of the stream decoder on a whole stream ends as the reference decoder does: output, coder, recent distances, probabilities, reason |
| `LzmaFormat.DecodeIsUnpack` | thermal_daemon/src/LzmaDec.c:244-576 | from any state between symbols, decoding with packed table, late normalisation and owed match bytes writes what the reference with separate trees, eager normalisation and immediate copies writes, for any input, limit and mode, and stops where it stops |
| `LzmaFormat.SymbolRuns` | thermal_daemon/src/LzmaDec.c:244-522 | one symbol: the walk over the optimised decision graph and the recursive reference (bit trees, reverse bit trees, direct bits) give the same symbol, use the same bytes, starve together, and leave tables that agree on every role |
| `LzmaFormat.LimitEnds` | thermal_daemon/src/LzmaDec.c:928-967 | without room for output the stream decoder looks for the end as the reference does, in both finish modes |
| `LzmaFormat.BitRuns` | thermal_daemon/src/LzmaDec.c:25-32 | one adaptive bit: normalising before the next bit equals normalising after this one |
| `LzmaFormat.LiteralRuns` | thermal_daemon/src/LzmaDec.c:261-306 | the literal loops, plain or following the match byte, decode the byte of the reference from the tree chosen by the match bits |
| `LzmaFormat.RevTreeRuns` | thermal_daemon/src/LzmaDec.c:462-474 | REV_BIT_VAR and its constant form decode a reverse bit tree: bits least significant first, although the table numbers the nodes differently |
| `LzmaFormat.DirectRuns` | thermal_daemon/src/LzmaDec.c:475-499 | the direct-bit loop decodes equiprobable bits, most significant first |
| `LzmaFormat.DistanceHasSlot` | thermal_daemon/src/LzmaDec.c:449-517 | a decoded distance, whichever way its low bits are read, lies between the base of the slot decoded first and the base of the next, and fits 32 bits |
| `LzmaFormat.SlotsPartition` | thermal_daemon/src/LzmaDec.c:449-517 | the 64 slots divide the distances below 2^32 among them: each has exactly one |
| `LzmaFormat.AddressUnique` | thermal_daemon/src/LzmaDec.c:98-163 | no two probabilities of the format share a slot of the packed table, including the packed length coder and the mirrored reverse trees |
| `LzmaFormat.AddressOk` | thermal_daemon/src/LzmaDec.c:98-163 | every probability of the format has a slot inside the table, in the part owned by its role |
| `LzmaFormat.MirrorUnique` | thermal_daemon/src/LzmaDec.c:39 | the node numbering of the reverse trees is one to one |
| `LzmaFormat.PacksFresh` | thermal_daemon/src/LzmaDec.c:908-914 | a table of 1024s is the packed form of a model in which nothing has been used |
| `LzmaRange.Normal` | thermal_daemon/src/LzmaDec.c:25 | one conditional shift always restores a range of at least 2^24 |
| `LzmaRange.After` | thermal_daemon/src/LzmaDec.c:27-29 | an adaptive bit leaves at least 16 bits of range, so one shift is enough |
| `LzmaRange.NewProb` | thermal_daemon/src/LzmaDec.c:28-29 | probabilities stay in 31..2017 and move toward the decoded bit |
| `LzmaRange.ProbMoves` | thermal_daemon/src/LzmaDec.c:28-29 | a bit moves its probability by a thirty-second of the way to 0 or 2048, rounded down; 31 and 2017 are the only fixed points |
| `LzmaRange.ProbSettles` | thermal_daemon/src/LzmaDec.c:28-29 | a run of equal bits brings every probability to 31 or 2017 and keeps it there |
| `LzmaRange.BoundShares` | thermal_daemon/src/LzmaDec.c:27 | the split point gives a zero p of 2048 parts of the range, up to the rounding |
| `LzmaRange.BoundFits` | thermal_daemon/src/LzmaDec.c:27 | the split point lies strictly inside the range and each part keeps at least one sixty-seventh of it |
| `LzmaRange.CodeBelowRange` | thermal_daemon/src/LzmaDec.c:25-29 | code < range survives normalisation and adaptive bits |
| `LzmaRange.DirectCodeBelowRange` | thermal_daemon/src/LzmaDec.c:480-489 | a direct bit keeps code < range except exactly when the range is odd and code is its top value |
| `LzmaRange.DirectIsComparison` | thermal_daemon/src/LzmaDec.c:484-497 | the branchless bit is the comparison code >= range exactly when code < range / 2 + 2^31, hence whenever code < range |
| `LzmaRange.TwentyBytes` | thermal_daemon/src/LzmaDec.h:50-53 | 2^24 times 256^20 pays for 22 adaptive bits at 1/67 and 26 direct bits at 1/2.01, flooring included |
| `LzmaCoding.NormalKeepsValue` | thermal_daemon/src/LzmaDec.c:25 | one normalisation moves a byte from the input to the code and loses nothing of the number they stand for |
| `LzmaCoding.ReadsBack` | thermal_daemon/src/LzmaDec.c:25-29 | a coder whose number lies in the interval an encoder reaches reads exactly the encoded bits |
| `LzmaCoding.RoundTrip` | thermal_daemon/src/LzmaDec.c:25-29 | any sequence of adaptive and direct bits, with any probabilities from 31 to 2017, encoded by an interval encoder that is not part of the source, is read back bit for bit |
| `LzmaSymbol.SlotInRegion` | thermal_daemon/src/LzmaDec.c:98-163 | every slot read lies in the region of its own role and inside the table |
| `LzmaSymbol.FollowOk` | thermal_daemon/src/LzmaDec.c:244-522 | every decision leads to a valid decision and uses up one of at most 48 |
| `LzmaSymbol.DryRunAgrees` | thermal_daemon/src/LzmaDec.c:666-856 | a walk that never updates probabilities reads the same symbol with the same bytes as the one that does |
| `LzmaSymbol.AheadNext` | thermal_daemon/src/LzmaDec.c:666-856 | no slot is read twice within a symbol |
| `LzmaSymbol.RunExtends` | thermal_daemon/src/LzmaDec.c:244-576 | a complete symbol does not depend on the bytes after it |
| `LzmaSymbol.RunShrinks` | thermal_daemon/src/LzmaDec.c:244-576 | a symbol that leaves bytes unread is complete without them |
| `LzmaSymbol.RunConsumes` | thermal_daemon/src/LzmaDec.c:244-576 | the bytes left over are a suffix of the bytes given |
| `LzmaSymbol.RunNormal` | thermal_daemon/src/LzmaDec.c:199-203 | decoding from an unnormalised coder equals normalising first |
| `LzmaSymbol.TwentyBytesDecode` | thermal_daemon/src/LzmaDec.h:50-53 | twenty bytes are enough for any symbol with its closing normalisation, from any normalised coder and any table |
| `LzmaSymbol.AtMostTwentyBytes` | thermal_daemon/src/LzmaDec.h:50-53 | no symbol ever uses more than twenty bytes |
| `LzmaStream.ApplyOk` | thermal_daemon/src/LzmaDec.c:308-545 | applying any accepted symbol keeps the state invariant: probabilities, recent distances between 1 and the output written and within the window, owed bytes |
| `LzmaStream.RecallMovesToFront` | thermal_daemon/src/LzmaDec.c:347-373 | a recent distance used again moves to the front, the others keep their order |
| `LzmaStream.DistancesAfter` | thermal_daemon/src/LzmaDec.c:347-522 | after any accepted symbol the four distances are the last ones used, the latest first |
| `LzmaStream.StateStep` | thermal_daemon/src/LzmaDec.c:261-523 | the twelve states by history: how many literals came last, up to three, and what kind of symbol came before them |
| `LzmaStream.StateFollowsHistory` | thermal_daemon/src/LzmaDec.c:261-523 | the state after any accepted symbol is that function of the kinds of symbols so far |
| `LzmaStream.CopyBackPeriodic` | thermal_daemon/src/LzmaDec.c:551-560 | every byte of a copied match equals the one at its distance before it, overlapping or not |
| `LzmaStream.FlushTwice` | thermal_daemon/src/LzmaDec.c:594-620 | cutting a match at an earlier limit and going on later writes the same bytes |
| `LzmaStream.FlushOk` | thermal_daemon/src/LzmaDec.c:594-620 | flushing keeps the invariant, stops at the limit, and bytes written plus bytes owed stay the same |
| `LzmaStream.DecodeOk` | thermal_daemon/src/LzmaDec.c:881-1025 | a stopped decoder is valid, within the limit, has only added output and left a suffix of its input; each status says why it stopped |
| `LzmaStream.TurnOk` | thermal_daemon/src/LzmaDec.c:924-1019 | every turn ends, reaches the end mark or has output to add, also when it used no input |
| `LzmaStream.DecodeInPieces` | thermal_daemon/src/LzmaDec.c:881-1025 | input in two pieces decodes as the two pieces joined |
| `LzmaStream.DecodeInSteps` | thermal_daemon/src/LzmaDec.c:630-656 | decoding to an early limit and then on to a later one is decoding to the later one |
| `LzmaStream.ChunkIndependence` | thermal_daemon/src/LzmaDec.c:881-1025 | however the input is cut, header included, the calls end in the same output, probabilities, coder state, unread bytes and status as one call |
| `LzmaDec.CLzmaDec.DecodePieces` | thermal_daemon/src/LzmaDec.c:881-1025 | a caller that hands in any list of pieces, as long as more input is asked for, ends with the object, status and unread bytes of one call on the pieces joined |
| `LzmaStream.NextSymbolNeeds` | thermal_daemon/src/LzmaDec.c:1001-1017 | bytes that were too few for a symbol are all used by it once it is complete |
| `LzmaStream.FirstSymbolRep` | thermal_daemon/src/LzmaDec.c:623-643 | on a fresh decoder the first symbol refers to a recent distance exactly when code >= kBadRepCode |
| `LzmaRangeDecoder.RangeDecoder.Normalize` | thermal_daemon/src/LzmaDec.c:25 | shifts one byte in when the range is short; otherwise nothing changes |
| `LzmaRangeDecoder.RangeDecoder.DecodeBit` | thermal_daemon/src/LzmaDec.c:27-29 | one adaptive bit takes one step of the walk |
| `LzmaRangeDecoder.RangeDecoder.DecodeLiteral` | thermal_daemon/src/LzmaDec.c:261-276 | eight tree bits reach the literal of the walk |
| `LzmaRangeDecoder.RangeDecoder.DecodeMatchedLiteral` | thermal_daemon/src/LzmaDec.c:279-305 | the offs and matchByte arithmetic follows the literal of the walk |
| `LzmaRangeDecoder.RangeDecoder.DecodeLen` | thermal_daemon/src/LzmaDec.c:379-411 | the length reached is the one of the walk, below 272 |
| `LzmaRangeDecoder.RangeDecoder.DecodeRep` | thermal_daemon/src/LzmaDec.c:329-377 | the flags select and reorder the recent distances as the kind reached says |
| `LzmaRangeDecoder.RangeDecoder.DecodeDirectBits` | thermal_daemon/src/LzmaDec.c:477-499 | the branchless direct bits reach the align bits of the walk |
| `LzmaRangeDecoder.RangeDecoder.DecodeSpecBits` | thermal_daemon/src/LzmaDec.c:460-474 | low distance bits with the distance itself as the tree index |
| `LzmaRangeDecoder.RangeDecoder.DecodeAlignBits` | thermal_daemon/src/LzmaDec.c:500-509 | the four align bits |
| `LzmaRangeDecoder.RangeDecoder.DecodeDistance` | thermal_daemon/src/LzmaDec.c:449-517 | distance or end mark, as the walk ends |
| `LzmaRangeDecoder.RangeDecoder.NormalizeCheck` | thermal_daemon/src/LzmaDec.c:72 | reports the missing byte instead of reading it |
| `LzmaRangeDecoder.RangeDecoder.CheckBit` | thermal_daemon/src/LzmaDec.c:74-80 | one dry-run bit, leaving the table alone |
| `LzmaRangeDecoder.RangeDecoder.CheckMatchedLiteral` | thermal_daemon/src/LzmaDec.c:699-716 | the dry run of a literal after a match |
| `LzmaRangeDecoder.RangeDecoder.CheckLen` | thermal_daemon/src/LzmaDec.c:777-808 | the dry run of a length |
| `LzmaRangeDecoder.RangeDecoder.CheckDistance` | thermal_daemon/src/LzmaDec.c:810-851 | the dry run of a distance |
| `LzmaRangeDecoder.RangeDecoder.CheckRep` | thermal_daemon/src/LzmaDec.c:732-776 | the dry run of the flags of a rep symbol |
| `LzmaRangeDecoder.BranchFree` | thermal_daemon/src/LzmaDec.c:484-488 | borrow, mask, shifted sum and addition give the bit and the remainder without a branch |
| `LzmaRangeDecoder.BranchFreeCheck` | thermal_daemon/src/LzmaDec.c:834-835 | the other branchless form, of the dry run, gives the same remainder |
| `LzmaRangeDecoder.MatchBit` | thermal_daemon/src/LzmaDec.c:63-68 | masking offs with the doubled match byte yields its next bit while the literal still follows it |
| `LzmaDec.RealLiteralIndex` | thermal_daemon/src/LzmaDec.c:230-258 | the masked word (pos << 8) + prev indexes the literal coder of the format for every lc, lp, position and byte |
| `LzmaDec.DryLiteralIndex` | thermal_daemon/src/LzmaDec.c:689-692 | the separately written index of the dry run is the same |
| `LzmaDec.CLzmaDec.CopyMatch` | thermal_daemon/src/LzmaDec.c:533-560 | the in-place copy writes the match byte by byte as the format defines it, and nothing else |
| `LzmaDec.CLzmaDec.LiteralProb` | thermal_daemon/src/LzmaDec.c:256-258 | the literal coder chosen is the one of the output so far |
| `LzmaDec.CLzmaDec.TakeLiteral` | thermal_daemon/src/LzmaDec.c:252-310 | a literal: the state is the one after the symbol was applied |
| `LzmaDec.CLzmaDec.TakeNewMatch` | thermal_daemon/src/LzmaDec.c:449-571 | a match with its own distance: applied and flushed to the limit, or refused exactly when the format refuses it or space is out |
| `LzmaDec.CLzmaDec.TakeReference` | thermal_daemon/src/LzmaDec.c:312-571 | all symbols that are not literals |
| `LzmaDec.CLzmaDec.DecodeSymbol` | thermal_daemon/src/LzmaDec.c:244-573 | one turn of the symbol loop applies exactly the next symbol |
| `LzmaDec.CLzmaDec.DecodeReal` | thermal_daemon/src/LzmaDec.c:186-591 | the symbol loop keeps the answer of the whole decoding, never reads past its input, makes progress, and fails only when the stream decoder fails |
| `LzmaDec.CLzmaDec.WriteRem` | thermal_daemon/src/LzmaDec.c:594-620 | writes exactly what is owed below the limit and keeps checkDicSize zero until a window is full |
| `LzmaDec.CLzmaDec.Round` | thermal_daemon/src/LzmaDec.c:632-652 | one round keeps the window hand-over and the answer of the whole decoding |
| `LzmaDec.CLzmaDec.DecodeReal2` | thermal_daemon/src/LzmaDec.c:630-656 | the same over all rounds |
| `LzmaDec.CLzmaDec.TryDummy` | thermal_daemon/src/LzmaDec.c:666-856 | answers "incomplete" exactly when the next symbol is, and otherwise its class |
| `LzmaDec.CLzmaDec.ReadHeader` | thermal_daemon/src/LzmaDec.c:889-920 | collects five bytes over any number of calls; a non-zero first byte is refused |
| `LzmaDec.CLzmaDec.InitModel` | thermal_daemon/src/LzmaDec.c:900-919 | every probability 1024, distances 1, state 0, code from the header |
| `LzmaDec.CLzmaDec.RefillTurn` | thermal_daemon/src/LzmaDec.c:980-1000 | tops up the kept bytes and either keeps them all or has a complete symbol |
| `LzmaDec.CLzmaDec.TempTurn` | thermal_daemon/src/LzmaDec.c:1001-1018 | both internal-error exits are unreachable; unused bytes go back to the caller |
| `LzmaDec.CLzmaDec.DirectTurn` | thermal_daemon/src/LzmaDec.c:948-979 | decodes from the caller's bytes, keeping an incomplete rest |
| `LzmaDec.CLzmaDec.DriverLoop` | thermal_daemon/src/LzmaDec.c:924-1024 | terminates, since every round halts, sees the end mark or adds output, and ends with the answer of the stream decoder |
| `LzmaDec.CLzmaDec.DecodeToDic` | thermal_daemon/src/LzmaDec.c:881-1025 | a call on any valid object gives exactly the reply of the stream decoder it stands for: status, output, unread bytes, next state; result SZ_ERROR_FAIL never occurs and nothing beyond the limit is written |
| `LzmaDec.CLzmaDec.constructor` | thermal_daemon/src/LzmaDec.c:874-878 | a new object stands for the stream decoder before its first byte |
| `LzmaDec.PropsDecode` | thermal_daemon/src/LzmaDec.c:1086-1110 | refuses exactly short data or a first byte of 225 and more; otherwise the exponents are in range and recombine to the byte, and the window is at least 4096 |
| `LzmaDec.PropsUnique` | thermal_daemon/src/LzmaDec.c:1100-1107 | the byte determines the three exponents |
| `LzmaDec.LzmaDecode` | thermal_daemon/src/LzmaDec.c:1168-1190 | one call ends as the stream decoder fed once does; input that ends early is reported as such |
| `SensorProxy.StepOk` | iio-sensor-proxy/src/iio-sensor-proxy.c:412-560 | every event keeps the invariant: waiting only for open drivers, polling exactly as wanted, every call on record exactly once |
| `SensorProxy.RunOk` | iio-sensor-proxy/src/iio-sensor-proxy.c:412-1133 | so does every interleaving of claims, releases, vanishing clients, removals, appearances and readings |
| `SensorProxy.AnsweredOnce` | iio-sensor-proxy/src/iio-sensor-proxy.c:513-559 | in every reachable state each call received is answered once or waits in one place, never both, and no other call is answered |
| `SensorProxy.WaitEnds` | iio-sensor-proxy/src/iio-sensor-proxy.c:836-853 | a call that waits has no reply yet; the first reading of its sensor leaves exactly one reply to it in the log, positive, the removal of the sensor exactly one, an error, and in both cases nobody waits for that sensor any more |
| `SensorProxy.HotplugAssertion` | iio-sensor-proxy/src/iio-sensor-proxy.c:1110 | the assertion at hotplug holds: no appearance is pending for a type without a driver |
| `SensorProxy.ClaimStartsPolling` | iio-sensor-proxy/src/iio-sensor-proxy.c:513-555 | a claim changes what is polled exactly when, in lazy mode, it is the first one of a present sensor |
| `SensorProxy.ReleaseStopsPolling` | iio-sensor-proxy/src/iio-sensor-proxy.c:412-436 | a release changes what is polled exactly when, in lazy mode, the last client of a present sensor goes |
| `SensorProxy.ClaimEdges` | iio-sensor-proxy/src/iio-sensor-proxy.c:513-555 | a claim enrols its sender with its watch in one table, changes no other client, and claiming again changes no table |
| `SensorProxy.ReleaseEdges` | iio-sensor-proxy/src/iio-sensor-proxy.c:412-436 | a release takes the sender alone out of one table and changes nothing else but the polling |
| `SensorProxy.VanishEdges` | iio-sensor-proxy/src/iio-sensor-proxy.c:438-465 | a client that vanishes leaves every table, nothing else changes, and polling of a type turns off exactly when it was polled lazily for that client alone |
| `SensorProxy.RemovalEdges` | iio-sensor-proxy/src/iio-sensor-proxy.c:1043-1087 | exactly the sensors on the removed path go, with all their clients; the proxy quits exactly when none is left |
| `SensorProxy.AddedOpens` | iio-sensor-proxy/src/iio-sensor-proxy.c:1088-1132 | only the first willing driver of an absent type is tried; if it does not open the device nothing changes |
| `SensorProxy.TableRun` | iio-sensor-proxy/src/iio-sensor-proxy.c:412-555 | over any run, a client is in a table exactly as the last claim, release, vanishing or removal there left it |
| `SensorProxy.ClientsAreClaims` | iio-sensor-proxy/src/iio-sensor-proxy.c:412-555 | from start-up on, a client is in a table exactly when the last thing said about it there was a claim |
| `SensorProxy.RefusedCall` | iio-sensor-proxy/src/iio-sensor-proxy.c:562-675 | a refused or unknown call is answered with an error and changes nothing else |
| `SensorProxy.AcceptedCall` | iio-sensor-proxy/src/iio-sensor-proxy.c:513-559 | an accepted call is answered positively at once, except exactly a new claim of a present sensor without a reading yet, which waits unanswered |
| `SensorProxy.AnnouncedOnce` | iio-sensor-proxy/src/iio-sensor-proxy.c:849-852 | an appearance is announced once, at once or with the first reading, and a removal once |
| `SensorProxy.StartOk` | iio-sensor-proxy/src/iio-sensor-proxy.c:757-803 | the state after start-up satisfies the invariant |
| `SensorProxy.StepSettles` | iio-sensor-proxy/src/iio-sensor-proxy.c:530-552 | with a driver that reports from within set_polling nothing is left waiting after any event |
| `SensorProxy.RunSettles` | iio-sensor-proxy/src/iio-sensor-proxy.c:530-552 | nor after any run of events |
| `SensorData.SensorData.constructor` | iio-sensor-proxy/src/iio-sensor-proxy.c:757-803 | start-up opens what was found and polls it unless lazy |
| `SensorData.SensorData.MaybeNotifySensorStartupFinished` | iio-sensor-proxy/src/iio-sensor-proxy.c:835-853 | answers the stolen list in order and sends the delayed signal, as the specification of a reading says |
| `SensorData.SensorData.AnswerAll` | iio-sensor-proxy/src/iio-sensor-proxy.c:843-846 | the loop answers every waiting call once |
| `SensorData.SensorData.DriverSetPolling` | iio-sensor-proxy/src/iio-sensor-proxy.c:541 | set_polling together with the readings the driver hands back before it returns |
| `SensorData.SensorData.ReleaseClient` | iio-sensor-proxy/src/iio-sensor-proxy.c:412-436 | refines the release step |
| `SensorData.SensorData.ClaimDevice` | iio-sensor-proxy/src/iio-sensor-proxy.c:513-555 | refines the claim step |
| `SensorData.SensorData.HandleMethodCall` | iio-sensor-proxy/src/iio-sensor-proxy.c:562-675 | refines a call event, refused and unknown calls included |
| `SensorData.SensorData.ClientVanished` | iio-sensor-proxy/src/iio-sensor-proxy.c:438-465 | refines the vanishing of a client over all sensor types |
| `SensorData.SensorData.ReadingArrived` | iio-sensor-proxy/src/iio-sensor-proxy.c:855-984 | refines the reading event for any present sensor |
| `SensorData.SensorData.SensorRemoved` | iio-sensor-proxy/src/iio-sensor-proxy.c:1043-1087 | refines a removal; the proxy quits when no sensor is left |
| `SensorData.SensorData.SensorAdded` | iio-sensor-proxy/src/iio-sensor-proxy.c:1088-1132 | refines an appearance; only the first driver that wants the device is tried |
| `SensorData.SensorData.PollTick` | iio-sensor-proxy/src/drv-mxc6655-accel.c:1265-1297 | a poll tick of the composed driver changes nothing in the proxy, since nothing waits |
| `SensorData.SensorData.LidMoved` | iio-sensor-proxy/src/drv-mxc6655-accel.c:1484-1495 | the lid moves only the timer |
| `SensorData.SensorData.NothingPending` | iio-sensor-proxy/src/drv-mxc6655-accel.c:1551-1568 | proxy and driver together: after every event no accelerometer claim or appearance waits, lid open or closed, and the timer runs exactly when polling is wanted and the lid is open |
| `Mxc6655.ComposeIsRotation` | iio-sensor-proxy/src/drv-mxc6655-accel.c:169-191 | panel compensation is a rotation by quarter turns and can be undone, for every connector value |
| `Mxc6655.LandscapeOfPanel` | iio-sensor-proxy/src/drv-mxc6655-accel.c:168-190 | where landscape ends up for each of the four panel mountings |
| `Mxc6655.ReadingsDiffer` | iio-sensor-proxy/src/drv-mxc6655-accel.c:1115-1145 | the synthetic reading determines the orientation |
| `Mxc6655.ReadingsTurn` | iio-sensor-proxy/src/drv-mxc6655-accel.c:1114-1145 | the synthetic readings are one gravity vector turned by quarter turns |
| `Mxc6655.LastRunMeaning` | iio-sensor-proxy/src/drv-mxc6655-accel.c:1241-1263 | the reference value is the vote cast six times in a row with no later such run, or the start value if there was none |
| `Mxc6655.ModeByAngles` | iio-sensor-proxy/src/drv-mxc6655-accel.c:1241-1263 | the votes decide as the angles do: tablet exactly when the most recent six counting angles that agree all lie above the tablet threshold, laptop when they lie between the minimum and the laptop threshold, unset when there were no such six |
| `Mxc6655.DrvData.ModeOfAngles` | iio-sensor-proxy/src/drv-mxc6655-accel.c:1241-1263 | the same of the driver after any history of angles, the ones at or below the minimum not counting |
| `Mxc6655.DebounceStep` | iio-sensor-proxy/src/drv-mxc6655-accel.c:1184-1199 | one classified sample keeps "current orientation is the most recent run of six" |
| `Mxc6655.DrvData.UpdateOrientationDebounce` | iio-sensor-proxy/src/drv-mxc6655-accel.c:1165-1207 | the debounce registers follow the history of samples, and exactly a change is reported |
| `Mxc6655.DrvData.ForceLandscape` | iio-sensor-proxy/src/drv-mxc6655-accel.c:1214-1224 | equals six landscape samples, reported once |
| `Mxc6655.DrvData.SetTabletMode` | iio-sensor-proxy/src/drv-mxc6655-accel.c:1226-1239 | entering laptop mode pins current and pending orientation to the compensated landscape |
| `Mxc6655.DrvData.UpdateTabletMode` | iio-sensor-proxy/src/drv-mxc6655-accel.c:1241-1263 | the angle joins the history, of which mode and counters stay functions; entering laptop mode forces landscape |
| `Mxc6655.DrvData.PollSensors` | iio-sensor-proxy/src/drv-mxc6655-accel.c:1265-1297 | one tick keeps all driver invariants, and the readings it reports are exactly the orientation if the sample completed a run of six and landscape if laptop mode was entered |
| `Mxc6655.DrvData.SendCurrentReading` | iio-sensor-proxy/src/drv-mxc6655-accel.c:1394-1404 | reports the current orientation, landscape while unknown |
| `Mxc6655.DrvData.UpdatePollingTimer` | iio-sensor-proxy/src/drv-mxc6655-accel.c:1438-1448 | the timer runs exactly when polling is wanted and the lid is open |
| `Mxc6655.DrvData.SetPolling` | iio-sensor-proxy/src/drv-mxc6655-accel.c:1551-1568 | turning polling on reports exactly once whatever the state; the timer follows |
| `Mxc6655.DrvData.SetLidClosed` | iio-sensor-proxy/src/drv-mxc6655-accel.c:1484-1495 | keeps every invariant of the driver |
| `Mxc6655.DrvData.constructor` | iio-sensor-proxy/src/drv-mxc6655-accel.c:1316-1380 | a fresh driver satisfies every invariant |
| `Cdev.ClampProjects` | thermal_daemon/src/thd_cdev.cpp:42-98 | without trip limits, clamping in either order is the projection onto the range, both directions |
| `Cdev.RawExact` | thermal_daemon/src/thd_cdev.h:155-161 | the raw clamp hands on an in-range state exactly when the range is forward or the state is min; a reversed range always gets min |
| `Cdev.BoostedBeyond` | thermal_daemon/src/thd_cdev.cpp:122-143 | with inc_val the clamped boost never falls behind its base, whatever the power wraps to; without it, exactly when the wrapped sum does not |
| `Cdev.ControlWithin` | thermal_daemon/src/thd_cdev.cpp:100-207 | an activation, in either range direction and also when 2^k times the step wraps in 32 bits, commands a state in range exactly when inc_val guards it, no boost is under way, or the wrapped sum is not behind min; a deactivation always does |
| `Cdev.ActivationRun` | thermal_daemon/src/thd_cdev.cpp:108-154 | closed form of n activations in a row from min, or from anywhere after a deactivation: one step, then base plus 2^min(n-1,20) steps, clamped; with inc_val for every n, without it as long as the sums before have not wrapped |
| `Cdev.BoostIdeal` | thermal_daemon/src/thd_cdev.cpp:122-143 | the clamped boost is that of unbounded arithmetic exactly when that fits an int, or its wrapped value lands at max or beyond, or, with inc_val, behind the base |
| `Cdev.BoostWeakens` | thermal_daemon/src/thd_cdev.cpp:122-143 | for consecutive powers with inc_val, either direction: the next one weakens the cooling exactly when bit 31 of the boost is set and what its doubling leaves is less than the room between base and max |
| `Cdev.RunWeakens` | thermal_daemon/src/thd_cdev.cpp:108-154 | the same exact condition for call n and n + 1 of any run of activations from min |
| `Cdev.SmallStepsNeverWeaken` | thermal_daemon/src/thd_cdev.cpp:108-154 | steps below 4096 never weaken the cooling from one call of a run to the next |
| `Cdev.BoostCanFall` | thermal_daemon/src/thd_cdev.cpp:108-154 | steps of exactly 4096 weaken it at the 21st call unless the first call already reached max, so the bound is tight |
| `Cdev.UnguardedStep` | thermal_daemon/src/thd_cdev.cpp:131-143 | without inc_val, at the first sum that may wrap: in range exactly when the sum fits an int or wraps past the far end of the range, weaker exactly when it does not fit and wraps short of max; both directions |
| `Cdev.UnguardedUntil` | thermal_daemon/src/thd_cdev.cpp:108-154 | in a run from min without inc_val every call stays in range as long as its sum fits, and the first one that does not fit does exactly when it wraps past the far end, which a one-sided range excludes |
| `Cdev.UnguardedExact` | thermal_daemon/src/thd_cdev.cpp:108-154 | without inc_val, for every range and step: all activations of a run from min stay in range if and only if the first of the twenty wrapped sums that is not strictly past min, if there is one, is min itself, where the run starts over |
| `Cdev.UnguardedRun` | thermal_daemon/src/thd_cdev.cpp:108-154 | without inc_val every activation of a run from min stays in range if first + 2^20 * inc_dec_val fits an int, and for a one-sided range (states counted from zero, either direction) only then |
| `Cdev.InHandThroughout` | thermal_daemon/src/thd_cdev.cpp:108-154 | max + 2^20 * inc_dec_val fitting an int keeps every boost that starts within the range in hand, whatever happened before |
| `Cdev.FallbackUnguarded` | thermal_daemon/src/thd_cdev.cpp:131-143 | a device of range 0..100 stepping by 2048 without inc_val leaves its range at the 21st call of a run from min |
| `Cdev.DownCloses` | thermal_daemon/src/thd_cdev.cpp:155-198 | a deactivation takes exactly one step, dec_val if given and inc_dec_val otherwise, off the distance from min, or what is left of it |
| `Cdev.DownsExact` | thermal_daemon/src/thd_cdev.cpp:155-198 | closed form of n deactivations in a row, for either range direction and any sign of the step |
| `Cdev.DownsReachMin` | thermal_daemon/src/thd_cdev.cpp:155-198 | repeated deactivation is at min if and only if the calls made up the distance: after ceil(distance / step) calls, and not before |
| `Cdev.StrongestIsBound` | thermal_daemon/src/thd_cdev.cpp:282-452 | the reference of arbitration, for either range direction, is at or beyond every target toward max, and is one of them, or min |
| `Cdev.LastIsStrongest` | thermal_daemon/src/thd_cdev.cpp:332-340 | in a sorted list of either direction the last entry is the target that asks for most cooling |
| `Cdev.StrongestFits` | thermal_daemon/src/thd_cdev.h:155-161 | the hardware is given the ruling target exactly when the range is forward or no target is beyond min |
| `Cdev.CompareBeyond` | thermal_daemon/src/thd_cdev.h:228-246 | the sign of the comparison is the direction of more cooling, in either range direction |
| `Cdev.OnOutcome` | thermal_daemon/src/thd_cdev.cpp:282-390 | an "on" call without a target is taken up unless early; one with a target also only if it is the first or asks for more cooling than there is |
| `Cdev.OffOutcome` | thermal_daemon/src/thd_cdev.cpp:391-452 | what an "off" call comes to, by the number of limits and whether the last one is the caller's |
| `Cdev.OffRemovesOnlyLast` | thermal_daemon/src/thd_cdev.cpp:400-431 | an "off" call frees the caller exactly when no earlier entry is its own |
| `Cdev.OffCanBeIgnored` | thermal_daemon/src/thd_cdev.cpp:249-257 | a trip that is not last keeps its limit although it called "off", against the comment |
| `Cdev.OnArbitrates` | thermal_daemon/src/thd_cdev.cpp:282-390 | an "on" call with a target sends the device to the strongest target, unless it is there already or the call is early |
| `Cdev.OffArbitrates` | thermal_daemon/src/thd_cdev.cpp:391-452 | an "off" call sends the device to the strongest target left, or to min |
| `Cdev.SortAllOk` | thermal_daemon/src/thd_cdev.cpp:332-340 | sorting orders the targets and permutes the list |
| `Cdev.SortAllNoDuplicates` | thermal_daemon/src/thd_cdev.cpp:332-340 | and keeps each zone and trip at most once |
| `Cdev.CoolingDevice.Int2Pow` | thermal_daemon/src/thd_cdev.h:91-97 | the loop computes the power of two |
| `Cdev.CoolingDevice.SetCurrStateRaw` | thermal_daemon/src/thd_cdev.h:155-161 | the state commanded is the raw clamp |
| `Cdev.CoolingDevice.Activate` | thermal_daemon/src/thd_cdev.cpp:108-154 | one activation, as the control step that ControlWithin and ActivationRun are about |
| `Cdev.CoolingDevice.Deactivate` | thermal_daemon/src/thd_cdev.cpp:155-198 | one deactivation, as the control step that DownsReachMin is about |
| `Cdev.CoolingDevice.TurnOn` | thermal_daemon/src/thd_cdev.cpp:282-390 | the caller is entered once; the decision follows the last entry, cooling already stronger and the debounce interval |
| `Cdev.CoolingDevice.TurnOff` | thermal_daemon/src/thd_cdev.cpp:391-452 | only a last entry of the caller goes; the decision follows what is then last |
| `Cdev.CoolingDevice.Apply` | thermal_daemon/src/thd_cdev.cpp:454-531 | how a decision becomes a state, with the boost forgotten at min |
| `Cdev.CoolingDevice.SetState` | thermal_daemon/src/thd_cdev.cpp:259-537 | the whole new state of a call; a device of either range direction at its strongest target (or min) stays there under any call with an in-range target, on, off, forced or not, except exactly by an early "on" that added a stronger one; an accepted hard target without limits commands max, min where the range runs downward; and over any mix of targets, hard targets and controller steps the state commanded stays in range as long as the boost is in hand |
| `Cdev.CoolingDevice.StepOn` | thermal_daemon/src/thd_cdev.cpp:371-389 | an "on" call without a target, not held back, steps the controller |
| `Cdev.CoolingDevice.KeepOn` | thermal_daemon/src/thd_cdev.cpp:259-537 | n "on" calls in good time of a trip without a target, from min or after an "off", command the closed form of n activations |
| `Cdev.CoolingDevice.StepOff` | thermal_daemon/src/thd_cdev.cpp:391-458 | an "off" call of the only trip, without a target, steps the controller down |
| `Cdev.CoolingDevice.KeepOff` | thermal_daemon/src/thd_cdev.cpp:259-537 | n such calls command the closed form of n deactivations, so min after ceil(distance / step) of them |
| `Cdev.CoolingDevice.TargetKeepsBoost` | thermal_daemon/src/thd_cdev.cpp:454-531 | a target in the middle of a boost does not disturb it: the next step commands what it would have without |
| `Cdev.CoolingDevice.constructor` | thermal_daemon/src/thd_cdev.h:104-111 | a new device is at min, with an empty list |
| `Rapl.ReadingExact` | thermal_daemon/src/thd_rapl_power_meter.cpp:165-182 | a reading keeps the account exact if and only if the energy advanced by less than the margin left at the last reading |
| `Rapl.HalfRangeIsSafe` | thermal_daemon/src/thd_rapl_power_meter.cpp:165-182 | less than half the range, less the rounding to millijoules, is below every margin |
| `Rapl.HalfRangeIsTight` | thermal_daemon/src/thd_rapl_power_meter.cpp:159-182 | in whole millijoules half the range is the largest advance that is safe wherever the counter stands |
| `Rapl.TracksEnergy` | thermal_daemon/src/thd_rapl_power_meter.cpp:165-182 | the shown total differs from the true energy by the rounding of the last reading and of the range, once per wrap, and by nothing more |
| `Rapl.MeteredTracks` | thermal_daemon/src/thd_rapl_power_meter.cpp:148-182 | over any number of samples, wraps and failed reads the account stays exact and half_way is "last counter above threshold" |
| `Rapl.EnergyConserved` | thermal_daemon/src/thd_rapl_power_meter.cpp:148-182 | from the first reading on, cumulative plus counter is the first reading plus the energy used |
| `Rapl.LateRange` | thermal_daemon/src/thd_rapl_power_meter.cpp:152-182 | when the range could not be read with the first energy, the next total is right exactly when the first reading was zero or the second is past the middle |
| `Rapl.PowerMeter.EnergyLoop` | thermal_daemon/src/thd_rapl_power_meter.cpp:135-207 | every domain is sampled once per call, not more than once a second, only while measuring is on |
| `Rapl.PowerMeter.GetEnergy` | thermal_daemon/src/thd_rapl_power_meter.cpp:209-229 | the first domain of the kind in microjoules; every domain is sampled first if that total is zero, measuring is on and a second has passed, and otherwise nothing changes |

## Left out

LZMA decoder

- LzmaDec.CLzmaDec.DecodeToDic: the dictionary is the output buffer, as in `LzmaDecode`; wrapping dictionaries and `LzmaDec_DecodeToBuf` are not modelled (there, line 545 leaves `pos` at 0 for distances beyond `dicPos`), so the branches for `dicPos < rep0`, `dicPos == 0` with an earlier window, and the slow copy do not appear.
- LzmaDec.CLzmaDec.DecodeToDic: on an error result only result and status are stated, not the contents of the object, which the source does not define either.
- LzmaDec.LzmaDecode: total output below 2^32 bytes; allocation, freeing and the out-of-memory result are not modelled; on a data error the number of bytes used and written is not stated.
- LzmaDec.CLzmaDec.constructor: initialisation of dictionary and state together only; keeping one of them is not modelled.
- The unrolled macros are modelled by the loops of the size-optimised configuration (lines 266, 285-291, 379-411), which decode the same bits.
- The four recent distances are a record, the input is an immutable sequence with a read position, and arrays hold unbounded naturals whose 32-bit arithmetic is written out.

Sensor claims

- D-Bus, polkit, udev, uinput, I2C and the lid device: only their answers and the replies sent.
- SensorProxy.AnsweredOnce: calls received after start-up, with empty client tables.
- Property-change signals other than a sensor appearing or going, and the stored previous readings.
- Mxc6655.DrvData.PollSensors: the filters, the orientation classifier and the hinge angle are inputs, angles are real numbers, failed reads are not modelled, and the 32-bit counters do not overflow.

Cooling device and energy meter

- Cdev.CoolingDevice.SetState: no PID control and no trip-specific range; the hardware keeps the state it is given, as in `thd_cdev_therm_sys_fs.cpp`; where a call may step the controller the sum of state and step must fit an int, as the source needs for defined behaviour; for a deactivation the difference is taken as exact.
- Cdev.CoolingDevice.SortLimits: the order of equal targets is whatever `std::sort` leaves; only order and contents are promised.
- Cdev.DownsReachMin: for a fixed range and step.
- Rapl.PowerMeter.EnergyLoop: power, minimum and maximum power are not modelled (a wrap leaves the old power standing), nor the wrap of the 64-bit total.
- Domain discovery, the sampling thread and time.

Elsewhere in the repository: the kernel modules, `vbt_patch`, the other sensor drivers, GDDV and XML parsing, zone and trip installation.
