# transocks-wong, verified

transocks-wong is a single-threaded transparent proxy. It accepts redirected TCP connections, asks a
SOCKS5 server (the relay) to connect to the original destination, and then pumps bytes both ways, through
libevent buffers (bufferpump) or through kernel pipes (splicepump). This project models that program in
Dafny and proves what every run of it keeps.

`dafny verify dfyconfig.toml` checks everything.

## How the model is built

| file | models |
|---|---|
| `Bytes.dfy`, `Socks5.dfy` | the messages of src/socks5.h, and server-side parsers written from RFC 1928 |
| `Connection.dfy` | what each callback of src/socks5.c and src/bufferpump.c does, per direction |
| `Runs.dfy` | libevent as an environment, runs as arbitrary event sequences, the inductive invariant |
| `CallbackTheorems.dfy` | what every event does to a client in any of those runs, field by field |
| `HandshakeTheorems.dfy`, `BufferpumpTheorems.dfy`, `Findings.dfy` | the theorems about those runs |
| `ClientObject.dfy` | the client structure and its bufferevents as objects, updated in place by the callbacks |
| `Splicepump.dfy`, `SpliceRuns.dfy`, `SpliceTheorems.dfy`, `SpliceObject.dfy` | the same layers for src/splicepump.c, with the kernel's `splice` as the environment |
| `Fifo.dfy` | the abstract channel that both pumps refine |
| `List.dfy`, `Hlist.dfy` | the mutators of src/list.h on the heap |
| `Lifecycle.dfy` | the client ring of src/context.c: accepting, freeing, dropping all |

A run is any finite sequence of events; an event that the environment cannot produce in a state leaves
the state alone, so the theorems hold for all sequences without side conditions. The object-level callbacks
are proved equal to the per-direction functions, and `ClientObject.Replay` proves that the object goes
through exactly the states of the runs. What these functions do is pinned down without naming them, in
`CallbackTheorems`, in the effect lemmas of `SpliceTheorems` and in `Lifecycle.OperationEffect`: for every run and every
event, which fields change and how, with the byte values of RFC 1928 written out.

libevent and the kernel appear only through these contracts. Buffers are FIFO; `evbuffer_remove_buffer`
moves everything; a read appends to the input and runs the read callback once the low watermark is
reached; a write takes a prefix of the output and runs the write callback when the output is empty
afterwards (it may also run spuriously); nothing is read while reading is disabled. `splice` returns -1, or
0 (at once when nothing is wanted, else only at end of file), or a number of bytes bounded by what is
wanted, available and free; pipe events fire only when the pipe holds data or its write end is closed.

## What the code does not guarantee

Five expectations turned out to hold only under a condition. Each has that condition, as an
if-and-only-if, and runs that violate it.

- A relay payload that arrives in the same read as the connect reply is moved only by a later relay read. If the relay ends its stream first, the client is half-closed without that payload: exact in `BufferpumpTheorems.ClientHalfCloseExact`, violated in `Findings.ResidueIsLost`. While the relay stays silent the payload waits, without any end of file (`BufferpumpTheorems.ResidueStalls`); nothing else ever waits there (`BufferpumpTheorems.InputIsResidue`).
- The connect-reply watermark is 10 bytes. An IPv6 reply of which 10 to 21 bytes are buffered is drained short, and its rest is forwarded as payload: exact in `BufferpumpTheorems.ClientStreamFidelity`, violated in `Findings.SplitIpv6ReplyLeaks`.
- The timer is deleted by every event callback of the handshake. An event with neither a success nor a failure flag leaves a waiting client without a timer; while the connection is pending, that is any event without the CONNECTED and ERROR flags, such as EOF alone. The repository does not show that libevent delivers one. Exact in `HandshakeTheorems.TimerStep`, violated in `Findings.StrayEventStopsTimer`.
- The splicepump ends with its first completed direction and drops what the other one still holds: exact in `SpliceTheorems.LossAtCompletion`, violated in `SpliceTheorems.HalfCloseDropsAnswer`.
- The repository's README says that SIGUSR1 closes all connections. With the splicepump, clients that are still in the handshake stay: exact in `Lifecycle.Env.LeftAfterDrop` for the ring and `Lifecycle.DropAllExact` for whole runs, violated in `Lifecycle.DropSparesHandshake`. The model follows the code.

The comment in src/splicepump.h says that the pipe events are never added and only activated; the code
adds them, so the activation never happens (`SpliceRuns.Reachable` keeps `activated` false). The model
follows the code.

## Model

| member | source | states |
|---|---|---|
| Socks5.RequestRoundTrip | src/socks5.c:93-127 | a parser written from section 4 of RFC 1928 consumes exactly the 10 or 22 encoded bytes and recovers command 1, address type 1 or 4, address and port, whatever follows |
| Socks5.RequestsPrefixFree | src/socks5.h:54-70 | streams that start with requests for two destinations are equal only if the destinations and the rests are equal |
| Socks5.ServerRecoversPreamble | src/socks5.c:93-196 | a server reading method request, connect request and payload recovers the one offered method 0, the destination and the payload |
| Runs.MethodReadKeepsInv | src/socks5.c:147-180 | any relay read in the method stage keeps the invariant: either the 2-byte reply was alone and accepted and the request is queued, or the client waits on or is freed |
| Runs.ReplyReadKeepsInv | src/socks5.c:44-91 | any relay read in the reply stage keeps the invariant, through to the pump's take-over |
| Runs.PumpReadKeepsInv | src/bufferpump.c:50-57 | reading on either side while pumping keeps conservation and both flow invariants |
| Runs.WriteKeepsInv | src/bufferpump.c:59-103 | writing any prefix of an output, with the write callback, keeps the invariant |
| Runs.PumpEventKeepsInv | src/bufferpump.c:106-196 | every event callback of the pump, for all flag combinations, keeps the invariant |
| Runs.StepKeepsInv | src/bufferpump.c:36-222 | every event of the environment keeps the invariant |
| Runs.Reachable | src/socks5.c:225-269 | the invariant holds after every event sequence from the state an accepted client starts in |
| CallbackTheorems.FreedForGood | src/context.c:110-155 | in every run a freed client has no timer, all four switches off, and no event changes it any more |
| CallbackTheorems.HandshakeListens | src/socks5.c:137-195 | a live handshake can always write what is queued, hears the relay in exactly the two reply stages, and never reads the client |
| CallbackTheorems.TimeoutFrees | src/socks5.c:217-223 | in every run a pending timer belongs to a live handshake, and its firing ends the client |
| CallbackTheorems.ConnectEventEffect | src/socks5.c:198-215 | while connecting, an event ends the client exactly with the error flag and without the connected one; a connection queues 05 01 00 and waits for two bytes with a timer; another event only stops the timer |
| CallbackTheorems.ReplyStageEventEffect | src/socks5.c:32-42 | in both reply stages an event ends the client exactly with the EOF or error flag, and else only stops the timer |
| CallbackTheorems.MethodReplyEffect | src/socks5.c:147-180 | in every run, whatever is read: below two bytes the client waits, exactly 05 00 queues a request that a section 4 parser reads as the destination, all else ends the client |
| CallbackTheorems.ConnectReplyEffect | src/socks5.c:44-91 | in every run, whatever is read: below ten bytes the client waits, 05 00 with type 1 or 4 removes 10 or at most 22 bytes and starts a pump with every field given, all else ends the client |
| CallbackTheorems.ReplyDecides | src/socks5.c:62-83 | for every reply of section 6 of RFC 1928 and every rest, the pump starts if and only if the code is 0 and the address an IP one, and then forwards exactly the rest |
| CallbackTheorems.PumpEventEffect | src/bufferpump.c:106-196 | in every run, for every flag combination: which flags and switches a read EOF, a write EOF or reset, another error or any other event changes, and that the other direction keeps its own |
| CallbackTheorems.PumpReadEffect | src/bufferpump.c:50-85 | a side that has not ended is read: buffered and new bytes move behind the output, nothing else changes; an ended side is not read |
| CallbackTheorems.PumpWriteEffect | src/bufferpump.c:59-103 | a target that is not shut gets the first n output bytes, is shut exactly if that empties the output of an ended source, and the client is freed exactly with the fourth flag |
| CallbackTheorems.SpuriousWriteCallback | src/bufferpump.c:59-103 | a write callback that no write precedes changes nothing |
| BufferpumpTheorems.RelayStreamFidelity | src/socks5.c:93-196 | in every run, bytes sent to the relay, queued or waiting are the requests followed by exactly the client's bytes, and a server parses them so |
| BufferpumpTheorems.ClientStreamFidelity | src/socks5.c:50-83 | while pumping, bytes sent to or queued for the client are the relay's stream without the two replies if and only if the connect reply was buffered in full at its callback or nothing was read since; always for IPv4 |
| BufferpumpTheorems.RelayHalfCloseSound | src/bufferpump.c:59-69 | whenever the drained branch half-closes the relay, every byte read from the client has been written to it |
| BufferpumpTheorems.ClientHalfCloseExact | src/bufferpump.c:87-97 | whenever the drained branch half-closes the client, every payload byte was written to it if and only if no handshake residue is stranded in the relay input |
| BufferpumpTheorems.InputIsResidue | src/bufferpump.c:78-85 | in every run, while pumping, the relay input is empty if and only if no residue of the handshake is stranded in it |
| BufferpumpTheorems.ResidueStalls | src/bufferpump.c:199-222 | in every continuation without a relay read of a pump that has read nothing from the relay yet, the residue stays where it is and the client gets no byte |
| BufferpumpTheorems.ShutOnlyWhenDrained | src/bufferpump.c:106-196 | in a live client a shut target that can still be written was shut by the drained branch |
| BufferpumpTheorems.NeverStuck | src/bufferpump.c:43-48 | a live pump with both sources at end of file has a direction still open whose pending output can be written |
| BufferpumpTheorems.StepDrains | src/bufferpump.c:59-196 | after both ends of file no step adds work, and every productive write or write-EOF step removes some |
| BufferpumpTheorems.DrainTerminates | src/bufferpump.c:59-196 | after both ends of file every run spends at most the pending work in productive steps, and the client is freed exactly when none is left |
| BufferpumpTheorems.EndsWhenBothClosed | src/bufferpump.c:36-48 | a pumping client is freed by a hard error or exactly when both directions are closed; a direction without write errors has then drained |
| BufferpumpTheorems.NormalEndDelivers | src/bufferpump.c:36-103 | a pumping client without write errors that is freed other than by a hard error has sent the relay the requests and every client byte, and got every payload byte if and only if no residue is stranded |
| BufferpumpTheorems.BufferpumpRefinesChannel | src/bufferpump.c:50-126 | without write errors and residue, every step of a direction simulates the abstract FIFO channel |
| BufferpumpTheorems.ReachableChannelSafe | src/bufferpump.c:199-222 | every reachable live pumping direction without residue and write error is a safe channel, from take-over on |
| BufferpumpTheorems.PumpingStaysSafe | src/bufferpump.c:50-126 | in every run that continues from there without write errors, delivered is a prefix of the stream and the target is closed only after all of it |
| Findings.SplitIpv6ReplyLeaks | src/socks5.c:71-73 | for every IPv6 success reply cut between byte 10 and byte 22, the second part reaches the client as payload |
| Findings.ResidueIsLost | src/bufferpump.c:155-170 | for every payload read together with an IPv4 reply and followed by end of file, the client is half-closed with nothing sent |
| Findings.StrayEventStopsTimer | src/socks5.c:198-215 | for every event with neither the connected nor the error flag while the connection is pending, the client lives on waiting, without a timer |
| HandshakeTheorems.StatesMoveForward | src/context.h:22-29 | client_state never goes back over any part of any run |
| HandshakeTheorems.PumpTrace | src/socks5.c:44-215 | a pump runs only after, in order, the connection, exactly 05 00, and a reply 05 00 with address type 1 or 4, which is the step that starts it; no client byte is read before |
| HandshakeTheorems.TimerStep | src/socks5.c:32-42 | a step keeps the timer pending exactly in the waiting stages if and only if it is not a stray event |
| HandshakeTheorems.TimerDiscipline | src/context.c:157-176 | in every run without stray events the timer is pending in exactly the three waiting stages |
| HandshakeTheorems.TimeoutNeverHitsPump | src/socks5.c:217-223 | in every run a timeout can fire only outside the pumping stage |
| HandshakeTheorems.ChunkingStartsPump | src/socks5.c:44-91 | however an accepting server's bytes are cut, the pump starts once the replies are read, and forwarded plus future bytes are the stream behind them |
| HandshakeTheorems.ChunkingIndependence | src/socks5.c:44-91 | two cuts of the same server bytes reach the same stage and forward the same bytes |
| ClientObject.BufferEvent.MoveInputTo | src/bufferpump.c:50-57 | the whole input ends up behind the other side's output |
| ClientObject.BuildConnectRequest | src/socks5.c:100-127 | the request structure filled field by field is the encoded request |
| ClientObject.Client.constructor | src/context.c:69-101 | a new client after a successful set-up is in the start state of the runs |
| ClientObject.Client.SetTimeout | src/context.c:157-176 | the timer is allocated and pending, whether or not it was before |
| ClientObject.Client.Free | src/context.c:110-155 | a live client becomes destroyed, with no timer pending and all four switches off; a destroyed one is left alone |
| ClientObject.Client.FreeIfClosed | src/bufferpump.c:43-48 | the client is freed exactly when all four flags are set |
| ClientObject.Client.ClientReadCallback | src/bufferpump.c:50-57 | the outbound flow moves its input |
| ClientObject.Client.RelayWriteCallback | src/bufferpump.c:59-76 | the outbound flow is half-closed if drained, then the close check runs |
| ClientObject.Client.RelayReadCallback | src/bufferpump.c:78-85 | the inbound flow moves its input |
| ClientObject.Client.ClientWriteCallback | src/bufferpump.c:87-103 | the inbound flow is half-closed if drained, then the close check runs |
| ClientObject.Client.ClientEventCallback | src/bufferpump.c:106-150 | read EOF sets client_shutdown_read, stops reading and, with nothing left to write, sets relay_shutdown_write; write EOF or reset sets client_shutdown_write and stops writing; other errors free |
| ClientObject.Client.RelayEventCallback | src/bufferpump.c:152-196 | read EOF sets relay_shutdown_read, stops reading and, with nothing left to write, sets client_shutdown_write; write EOF or reset sets relay_shutdown_write and stops writing; other errors free |
| ClientObject.Client.StartPump | src/bufferpump.c:199-222 | watermarks, callbacks and switches of both sides are those of a pump |
| ClientObject.Client.OnHandshakeEvent | src/socks5.c:32-42 | the timer is deleted, and EOF or error, nothing else, frees |
| ClientObject.Client.OnConnectReplyReadable | src/socks5.c:44-91 | a reply of at least 10 bytes with version 5, code 0 and address type 1 or 4 loses 10 or 22 bytes and the pump starts; anything else frees |
| ClientObject.Client.SendRequest | src/socks5.c:93-145 | the encoded request is queued, watermark, callback and timer set; an unknown family frees |
| ClientObject.Client.OnMethodReplyReadable | src/socks5.c:147-180 | exactly 05 00 leads to the connect request, for an IP destination; anything else frees |
| ClientObject.Client.SendMethodRequest | src/socks5.c:182-196 | the method request is queued, watermark, callback and timer set |
| ClientObject.Client.OnConnectEvent | src/socks5.c:198-215 | a connection starts the method stage, an error without one frees |
| ClientObject.Client.OnTimeout | src/socks5.c:217-223 | a timeout destroys the client, with no timer pending and all switches off |
| ClientObject.Replay | src/socks5.c:32-269 | the object-level client goes through exactly the states of the runs the theorems speak of |
| SpliceRuns.SourceStep | src/splicepump.c:156-222 | for every splice result, a pipe write keeps its direction's invariant, leaves the other alone and ends the pump exactly on an error that cannot be retried |
| SpliceRuns.PipeStep | src/splicepump.c:224-279 | for every splice result, a pipe read keeps its direction's invariant, and end of file means an empty pipe with a closed write end |
| SpliceRuns.Reachable | src/splicepump.c:378-452 | the invariant holds after every event sequence from a freshly started pump |
| SpliceTheorems.Accounting | src/splicepump.c:196-198 | delivered then pipe bytes are the spliced bytes, a prefix of what was sent; the counter is the pipe's occupancy, within capacity, and never wraps |
| SpliceTheorems.DirectionsIndependent | src/splicepump.c:168-183 | a step of one direction leaves the other's bytes, and unless it frees its fields, unchanged |
| SpliceTheorems.FreedPumpIsClosed | src/splicepump.c:323-359 | in every run an ended pump has both pipes closed at both ends, no event registered and both sockets gone, and stays so |
| SpliceTheorems.PipeWriteEffect | src/splicepump.c:131-222 | in every run, a failed splice into the pipe changes nothing if retriable and else ends the pump; zero bytes end the source, close the write end and delete its event; more are counted |
| SpliceTheorems.PipeReadEffect | src/splicepump.c:131-279 | in every run, a failed splice out of the pipe changes nothing if retriable and else ends the pump; zero bytes shut the target and end the pump; more are counted and delivered |
| SpliceTheorems.RetryWakesReader | src/splicepump.c:199-206 | a retriable pipe write activates the reader of a pipe with data exactly if it is not pending, and changes nothing else |
| SpliceTheorems.InvalidDescriptorEnds | src/splicepump.c:75-100 | with either socket or the pipe end invalid, every callback ends the pump whatever splice returns |
| SpliceTheorems.PipeEofSound | src/splicepump.c:247-273 | the pipe's end-of-file branch runs only with an empty pipe, a closed write end and everything delivered |
| SpliceTheorems.ShutdownAfterDelivery | src/splicepump.c:268-273 | a target is shut for writing only after everything its source ever sends was delivered |
| SpliceTheorems.EndsAtFirstCompletion | src/splicepump.c:75-100 | no write flag is set in a live pump; it ends exactly on a splice error that cannot be retried or on the first completed direction |
| SpliceTheorems.LossAtCompletion | src/splicepump.c:75-100 | in every run, the end-of-file callback of a direction ends the pump; the other direction then has delivered all it spliced if and only if its counter is zero, and all it was sent if and only if its socket queue is empty, too |
| SpliceTheorems.HalfCloseDropsAnswer | src/splicepump.c:88-99 | for every answer that fits the pipe, a client finishing its sending first gets none of it |
| SpliceTheorems.EndedDirectionReadable | src/splicepump.c:424-435 | while the pump lives, the pipe event of an ended direction can fire productively |
| SpliceTheorems.EndedDirectionProgresses | src/splicepump.c:224-279 | once a direction ended no step adds work to it, and every productive read removes some |
| SpliceTheorems.DrainTerminates | src/splicepump.c:224-279 | an ended direction needs at most one productive read per pipe byte, and one more, until the free |
| SpliceTheorems.SplicepumpRefinesChannel | src/splicepump.c:156-279 | every step of a direction simulates the abstract FIFO channel |
| SpliceTheorems.SplicepumpStaysSafe | src/splicepump.c:156-279 | in every run from the start, delivered is a prefix of the spliced bytes and the target is closed only after all of them |
| SpliceObject.SpliceClient.CheckTermination | src/splicepump.c:75-100 | the pump is freed exactly when a socket is invalid or the given direction has both flags |
| SpliceObject.SpliceClient.MoveIntoPipe | src/splicepump.c:156-222 | the pipe write computes its function for every splice result; an error frees exactly if it cannot be retried |
| SpliceObject.SpliceClient.MoveOutOfPipe | src/splicepump.c:224-279 | the pipe read computes its function for every splice result; an error frees if it cannot be retried and else changes nothing |
| SpliceObject.SpliceClient.Free | src/splicepump.c:323-359 | both pipes are closed, all events deleted, both sockets invalid |
| SpliceObject.SpliceClient.constructor | src/splicepump.c:378-452 | a started pump has two new pipes, all events pending and no flag set |
| SpliceObject.SpliceClient.Dispatch | src/splicepump.c:102-129 | handling one event is one step of the runs |
| SpliceObject.Replay | src/splicepump.c:102-452 | from its start on, the object goes through exactly the states of the runs the theorems speak of |
| List.Empty | src/list.h:284-287 | true exactly for a ring without entries |
| List.EmptyCareful | src/list.h:302-306 | true exactly for a ring without entries |
| List.IsLast | src/list.h:274-278 | true exactly for the last entry |
| List.IsSingular | src/list.h:326-329 | true exactly for one entry |
| List.Add | src/list.h:116-140 | the node becomes the first entry |
| List.AddTail | src/list.h:151-154 | the node becomes the last entry |
| List.Del | src/list.h:163-188 | the other nodes of the circle close up, and the node is poisoned |
| List.DelInit | src/list.h:217-221 | the other nodes of the circle close up, and the node is a circle of its own |
| List.Replace | src/list.h:197-204 | the new node takes the old one's place, also in an empty list |
| List.ReplaceInit | src/list.h:206-211 | as replace, and the old node is a circle of its own |
| List.Move | src/list.h:228-232 | from the same list, another one or none, the node becomes the first entry and its old circle closes up |
| List.MoveTail | src/list.h:239-244 | from the same list, another one or none, the node becomes the last entry and its old circle closes up |
| List.BulkMoveTail | src/list.h:255-267 | a ++ seg ++ b becomes a ++ b ++ seg, also with b empty |
| List.RotateLeft | src/list.h:312-320 | the first entry becomes the last; an empty list stays empty |
| List.CutPosition | src/list.h:331-369 | the entries up to and including entry move to list, with the head, empty and singular corner cases |
| List.CutBefore | src/list.h:385-399 | the entries before entry move to list; all of them when entry is the head |
| List.Splice | src/list.h:401-425 | the entries of list go in front of those of head |
| List.SpliceTail | src/list.h:432-437 | the entries of list go behind those of head |
| List.SpliceInit | src/list.h:446-453 | as splice, and list is left empty |
| List.SpliceTailInit | src/list.h:463-470 | as splice tail, and list is left empty |
| List.CutPositionThenSplice | src/list.h:357-453 | cutting up to any entry or the head and splicing back restores the list |
| List.CutBeforeThenSplice | src/list.h:385-453 | cutting before any entry or the head and splicing back restores the list |
| List.RotationsWrap | src/list.h:312-320 | k rotations move the first k entries to the end, and as many as there are entries are the identity |
| List.RotateFully | src/list.h:312-320 | rotating a list as often as it has entries leaves it as it was |
| Hlist.SlotsPointBack | src/list.h:44-46 | following a node's pprev leads to the slot that points to it |
| Hlist.Empty | src/list.h:752-755 | true exactly for a list without nodes |
| Hlist.Unlink | src/list.h:757-765 | the node leaves the list, which keeps the slot invariant |
| Hlist.Del | src/list.h:767-772 | as unlink, and the node is poisoned |
| Hlist.DelInit | src/list.h:774-780 | as unlink and unhashed; an unhashed node is left alone |
| Hlist.AddHead | src/list.h:782-790 | the node becomes the first |
| Hlist.AddBefore | src/list.h:793-800 | the node goes right before the given one |
| Hlist.AddBehind | src/list.h:802-811 | the node goes right behind the given one |
| Hlist.IsSingularNode | src/list.h:828-832 | true exactly when the list of the given head consists of the node alone |
| Hlist.MoveList | src/list.h:838-845 | the nodes move to the new head and the old one is empty |
| Lifecycle.Env.constructor | src/context.c:44-46 | the ring starts empty |
| Lifecycle.Env.ListedIffLive | src/context.c:110-155 | an accepted client is on the ring if and only if its memory is not released, and if and only if its connection is alive |
| Lifecycle.Env.Accept | src/listener.c:96-96 | the accepted client goes to the end of the ring, which stays exact |
| Lifecycle.Env.ClientFree | src/context.c:110-155 | the ring loses exactly the freed client; a client that was never linked leaves it unchanged |
| Lifecycle.Env.Handle | src/socks5.c:32-223 | an event takes the connection one step; the client leaves the ring exactly if that step freed it |
| Lifecycle.Env.PumpFree | src/splicepump.c:323-359 | the client is freed, unless the splicepump is not attached yet |
| Lifecycle.Env.DropAll | src/context.c:178-185 | the safe loop visits every client once in order, reads no released entry, ends, and leaves exactly the clients whose pump declines, unchanged |
| Lifecycle.Env.LeftAfterDrop | src/context.c:178-185 | a client is left exactly if the pump is the splicepump and its handshake is not finished; none is with the bufferpump |
| Lifecycle.Serve | src/context.c:110-185 | over any sequence of accepts, failed set-ups, connection events, pump frees and drops, each accepted client has the destination, memory and connection that this sequence gives it, and the ring is well formed and lists exactly the live ones in accept order |
| Lifecycle.SlotIsRun | src/context.c:178-185 | in any such sequence a live client is in the state of the connection runs that its own events lead to, whatever happens to the others |
| Lifecycle.SlotsAreAccepts | src/listener.c:96-96 | there is one client per accept, with its destination, in accept order |
| Lifecycle.TakesItsEvents | src/socks5.c:32-223 | no event is lost: a live client has taken every event aimed at it since it was accepted, in order; under the splicepump those up to the end of the handshake |
| Lifecycle.OperationEffect | src/context.c:110-185 | which clients one more operation changes, and how: an event steps the live client it is aimed at, a pump free or a drop ends exactly those whose pump does not decline |
| Lifecycle.EndedIsSwitchedOff | src/context.c:131-143 | however a client ended, no timer is pending for it and neither side is read or written |
| Lifecycle.LiveSlotInv | src/context.c:110-185 | in any such sequence every live client satisfies the invariant of the connection runs |
| Lifecycle.DropAllExact | src/context.c:178-185 | in any such sequence a drop leaves a client alive, and then unchanged, if and only if it was alive, the pump is the splicepump and its handshake is not finished |
| Lifecycle.DropSparesHandshake | src/splicepump.c:323-328 | with the splicepump, accepting a client and dropping all leaves that client alive in its start state |

## Left out

- libevent, sockets, pipes and `splice` themselves: only the contracts above are modelled, and bytes arrive or leave in arbitrary amounts, so read high watermarks and buffer bounds are not.
- Set-up failures and allocation failures (src/listener.c, src/socks5.c, src/splicepump.c, src/context.c): set-up is assumed to succeed.
- Descriptor numbers: a pipe end is an open or closed flag beside the stored number, and nothing is claimed about closing exactly once.
- Relay bytes that are still in the bufferevent when the splicepump takes over: the splicepump theorems speak of bytes spliced after that.
- Poison values: a poisoned `next` or `prev` is a null link, a poisoned `pprev` a slot that cannot be used.
- `hlist_add_fake`, `hlist_fake`, and the iteration macros other than the safe entry loop: easy members.
- Option parsing, addresses, logging, signal registration, pump selection by name, client dumps: I/O or thin wrappers.
- Lifecycle.Client holds its connection as a value of the connection runs; the in-place updates of that connection are in ClientObject.Client, and `ClientObject.Replay` ties the two.
- Lifecycle.Serve does not follow a splicepump client's events behind the handshake: its end comes as a pump free, and what precedes it is in `SpliceTheorems`.
- Lifecycle.Env keeps container_of as a table from entries to clients instead of address arithmetic.
