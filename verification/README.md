# File copy, chat servers and packet modifier: a verified model

Three programs of the repository are modelled in Dafny and their central properties proved for every
input, every run and every interleaving.

**The asynchronous file copy** (`hw3`). A pool of buffers moves through free, read in flight, write in
flight, free. The kernel is a set of outstanding requests: on each trip it may complete any of them, with
any result up to the requested length, errors included. `FileCopy` is the transition system on values,
`FileCopyRuns` and `FileCopyTheorems` treat whole runs, `AsyncCopy.Copier` is the loop over arrays that it
updates in place, `BlockingCopy` the read/write loop it is compared with. Main results: bytes are conserved
up to what the completions lose; the loop leaves through its own condition exactly when every transfer was
full and there were two per chunk, and then the destination is the source; after one short or failed
transfer it runs for ever (the code never retries, so this is what the code does, not what a copy should do),
and such runs exist for every non-empty file. `FileCopyLedger` says what any run, lossy ones included, leaves
in the destination, chunk by chunk.

**The Internet checksum and the packet modifier** (`hw5`). `InternetChecksum` has the accumulation and fold
loops over an array on a little-endian host, `ChecksumLaws` the properties of RFC 1071 and the agreement
with the RFC's own network-order definition by end-around carry. `Packet` is the modifier on values,
`Modifier` the in-place program, `Sender` the program that builds the packets, `UdpZero` a frame on which
the modifier sends a zero UDP checksum, which RFC 768 reserves; `Packet.ZeroSentIff` says exactly when that
happens. `PacketTheorems` states what is sent in terms of the received frame's own fields alone.

**The chat servers** (`hw4`). `ChatRoom` is an abstract room over connections that are never reused, with a
log of broadcasts. `ChatServer` is the 100-slot table together with the operating system's descriptors,
`ChatRefinement` and `ChatRuns` prove that scanning slots by descriptor implements the room, run by run.
`Answers` says what each answer of accept and recv leads to. `Epoll` adds batches of events, `Uring` the
ownership of outstanding requests, and `ServersAgree` shows that each of these two servers can do what the
other can. `Threads`, `ThreadsSafety`, `ThreadsTheorems` and `ThreadedServer` treat the threaded server,
interleaved at every step outside the mutex and at every single send inside it; `Handler` says what a
handler does next after each answer and each broadcast. `OwnNumber` gives the exact condition under which a
handler finds its own client number, and `WrongNumber` a run in which a client speaks under another client's
number; every accept in that run returns the lowest free descriptor, as POSIX has it. There one client's
slot is already clear, and its descriptor not yet closed, when the next client arrives.

Assumed of the environment: `accept` returns a descriptor that is not open (the results about every run need
no more; the example run keeps to the lowest one); `send` to an open descriptor succeeds in full; `epoll_wait`
returns distinct registered descriptors; `epoll_ctl`, `malloc`, queue set-up and thread creation succeed; the
source file does not change; a read returns 0 only at its end. Schedules, kernel answers and received bytes
are parameters over which the results quantify. A run that a program would continue for ever is given by a
finite schedule of any length.

`dafny verify dfyconfig.toml` checks the whole project.

## Model

| member | source | states |
|---|---|---|
| FileCopy.FillFrom | hw3/hw3_1/HW3_1.c:108-130 | handing reads to the free slots from i on keeps the whole slot, request and destination invariant |
| FileCopy.FillSlotInv | hw3/hw3_1/HW3_1.c:109-129 | one slot given the next stretch keeps the invariant: its record, its request and the file position agree |
| FileCopy.ReadDoneInv | hw3/hw3_1/HW3_1.c:146-154 | after any successful read, full or short, the slot's write carries exactly the source bytes of its recorded offset |
| FileCopy.WriteDoneDest | hw3/hw3_1/HW3_1.c:159-162 | after any write the destination is what it was, with the source bytes of the written stretch put over it; so every byte is still the source byte or a zero gap |
| FileCopy.CompleteInv | hw3/hw3_1/HW3_1.c:142-165 | any completion of any outstanding request, with any result, keeps the invariant |
| FileCopy.SlotOwnsOneRequest | hw3/hw3_1/HW3_1.c:120-128 | a slot is in use iff exactly one outstanding request belongs to it; active_reqs counts both |
| FileCopy.RequestsDisjoint | hw3/hw3_1/HW3_1.c:118-125 | two outstanding requests use different buffers and disjoint stretches of the file |
| FileCopyRuns.FillUsesPool | hw3/hw3_1/HW3_1.c:108-135 | a pass loses no byte and no work, and ends with the source used up or every slot busy: get_sqe never fails it |
| FileCopyRuns.CompleteKeeps | hw3/hw3_1/HW3_1.c:142-165 | a completion moves bytes from in flight to written up to its loss, and uses up one or two units of work |
| FileCopyRuns.FullCompletionLosesNothing | hw3/hw3_1/HW3_1.c:146-165 | after a full transfer every byte handed out is still in the destination or in flight |
| FileCopyTheorems.RunConserves | hw3/hw3_1/HW3_1.c:105-167 | in every run, read_offset = bytes_written + bytes in flight + bytes lost by the completions |
| FileCopyTheorems.FullRunWorks | hw3/hw3_1/HW3_1.c:105-167 | every full transfer decreases the measure 2·unissued + 2·reading + writing by exactly one |
| FileCopyTheorems.CompletionsBounded | hw3/hw3_1/HW3_1.c:105-167 | any run, whatever the results, sees at most two completions per chunk |
| FileCopyTheorems.IdleMeansStuck | hw3/hw3_1/HW3_1.c:105-137 | if the loop runs with nothing outstanding, bytes were lost, a trip changes nothing, and no completion can come: it spins for ever |
| FileCopyTheorems.Progress | hw3/hw3_1/HW3_1.c:137-140 | the loop waits only when a request is outstanding, and a lossless run can always go on |
| FileCopyTheorems.LosslessIsFull | hw3/hw3_1/HW3_1.c:105-167 | a run that lost no byte had only full transfers and never idled |
| FileCopyTheorems.ExitIff | hw3/hw3_1/HW3_1.c:105-167 | the loop leaves through its own condition iff every transfer was full and there were exactly 2·ceil(file_size/65536) of them |
| FileCopyTheorems.ExitedCopyIsExact | hw3/hw3_1/HW3_1.c:105-167 | for every schedule, if the loop leaves through its condition the destination equals the source |
| FileCopyTheorems.LossyCopyNeverEnds | hw3/hw3_1/HW3_1.c:105-167 | once a byte is lost the loop condition is true whatever follows |
| FileCopyTheorems.StuckForever | hw3/hw3_1/HW3_1.c:105-137 | from a state that runs on with nothing outstanding, the legal schedules are exactly those of idle trips, of any number, and none of them changes the state |
| FileCopyTheorems.LossEndsStuck | hw3/hw3_1/HW3_1.c:105-167 | once a byte is lost, every schedule with as many trips as there was work left ends in such a state, whatever the results |
| FileCopyTheorems.SomeRunNeverEnds | hw3/hw3_1/HW3_1.c:105-167 | for every non-empty source, pool and start state there is a legal run that loses bytes and ends in such a state |
| FileCopyTheorems.CanFinish | hw3/hw3_1/HW3_1.c:105-167 | from every lossless reachable state some schedule of full transfers ends the loop |
| FileCopyLedger.IssuedTile | hw3/hw3_1/HW3_1.c:108-130 | the stretches handed out in a run tile the file from the first read_offset to the last, whatever the results |
| FileCopyLedger.TilesCoverOnce | hw3/hw3_1/HW3_1.c:118-125 | such stretches are pairwise disjoint and cover exactly the positions between |
| FileCopyLedger.PwriteLands | hw3/hw3_1/HW3_1.c:150 | a positioned write of the front of a chunk leaves exactly that front, all other landed bytes, and zeros between |
| FileCopyLedger.HeldOnce | hw3/hw3_1/HW3_1.c:150-162 | how much of each chunk has landed determines the destination, so the order of the writes does not show |
| FileCopyLedger.CompleteAccounts | hw3/hw3_1/HW3_1.c:142-165 | a completion with any result adds its bytes to one chunk, of which nothing had landed, and keeps the ledger of landed bytes exact |
| FileCopyLedger.RunLands | hw3/hw3_1/HW3_1.c:105-167 | after any run, losses included, the destination holds the landed front of every chunk and zeros between, and bytes_written is the sum of the landed lengths |
| AsyncCopy.Copier.constructor | hw3/hw3_1/HW3_1.c:70-103 | set-up establishes the start state whatever the fresh memory holds |
| AsyncCopy.Copier.PrepareRead | hw3/hw3_1/HW3_1.c:113-128 | one slot's read, prepared in the arrays, is the transition on values |
| AsyncCopy.Copier.FillPool | hw3/hw3_1/HW3_1.c:108-135 | the for loop with its break on an empty queue is Fill, for every queue of at least ENTRY entries |
| AsyncCopy.Copier.KernelCompletes | hw3/hw3_1/HW3_1.c:138-144 | the kernel fills the buffer or writes the file as far as the result says |
| AsyncCopy.Copier.HandleCompletion | hw3/hw3_1/HW3_1.c:142-165 | the reaction to a completion, through the slot's record, is Handle on values |
| AsyncCopy.Copier.Trip | hw3/hw3_1/HW3_1.c:106-166 | one trip round the loop is one Step and keeps the invariant |
| AsyncCopy.Copier.CopyLoop | hw3/hw3_1/HW3_1.c:105-167 | the loop over the arrays is the run of the transition system |
| AsyncCopy.AsyncIo | hw3/hw3_1/HW3_1.c:64-178 | the whole copy: ends iff all transfers were full and two per chunk; then dest == src; in every case dest holds exactly the landed front of every chunk and zeros between, and bytes_written is their sum |
| BlockingCopy.WrittenExactIff | hw3/hw3_1/HW3_1.c:52-58 | what the read/write loop writes is the source iff the reads covered it and no write was short or failed |
| BlockingCopy.WrittenBlock | hw3/hw3_1/HW3_1.c:52-58 | what each round writes stands right behind what the rounds before wrote and comes from where they had read to: a short write is not made up for, and the loop goes on behind it |
| BlockingCopy.BlockingIo | hw3/hw3_1/HW3_1.c:35-62 | the loop with short reads, short writes and errors: dest == src iff the reads covered the file and every write was full |
| BlockingCopy.AsyncAgreesWithBlocking | hw3/hw3_2/HW3_2.c:52-167 | every pool size and completion order of full transfers gives the sequential loop's destination, short sequential reads included |
| InternetChecksum.SumWords | hw5/HW5_1_5.c:33-42 | the accumulation loop never wraps the 64-bit accumulator and returns the word sum |
| InternetChecksum.ComputeChecksum | hw5/HW5_1_5.c:32-49 | both loops and the truncated complement return the checksum of exactly the given bytes |
| InternetChecksum.AccumulatorFits | hw5/HW5_1_5.c:33-46 | for up to 65536 bytes the sum is below 2^32 and two folds suffice |
| InternetChecksum.FoldIsRepresentative | hw5/HW5_1_5.c:44-46 | the fold loop returns 0 for 0 and otherwise the representative 1..65535 of the sum modulo 65535 |
| InternetChecksum.FoldAdd | hw5/HW5_1_5.c:44-46 | folding turns addition into one's complement addition with end-around carry |
| InternetChecksum.FoldEqualIff | hw5/HW5_1_5.c:44-48 | two sums fold alike iff they agree modulo 65535 and on being zero |
| InternetChecksum.ZeroSumIff | hw5/HW5_1_5.c:36-42 | the sum is zero iff every byte is |
| ChecksumLaws.ChecksumIsRfc1071 | hw5/HW5_1_5.c:32-49 | for every content and length the bytes stored on a little-endian host are those of RFC 1071's network-order checksum |
| ChecksumLaws.ChecksumOfParts | hw5/HW5_1_5.c:71-77 | an even prefix and the rest may be summed and folded separately and added in one's complement |
| ChecksumLaws.ByteOrderIndependence | hw5/HW5_1_5.c:32-49 | exchanging the bytes of every word exchanges the bytes of the checksum |
| ChecksumLaws.OrderIndependence | hw5/HW5_1_5.c:36-39 | any permutation of the words has the same checksum |
| ChecksumLaws.SealedVerifies | hw5/Sender.c:76-77 | zeroing an even-aligned field, computing and storing makes the whole check to zero |
| ChecksumLaws.VerifiesIff | hw5/HW5_1_5.c:284-285 | a field value checks to zero iff it is the computed one, or all ones where zero is computed |
| ChecksumLaws.ResealValid | hw5/HW5_1_5.c:284-285 | recomputing a valid field changes nothing, except all ones to zero when the rest is not all zero |
| ChecksumLaws.SealTwice | hw5/HW5_1_5.c:284-285 | zeroing, computing and storing twice is the same as once |
| ChecksumLaws.ChangeDetectedIff | hw5/HW5_1_5.c:32-49 | changing one word goes unnoticed iff it is equal, or swaps 0x0000 and 0xFFFF with some other byte non-zero |
| Packet.TakenIff | hw5/HW5_1_5.c:187-263 | a frame passes the UDP guards or the TCP guards iff it is incoming, a whole unfragmented IPv4 datagram and holds a payload for the port, in the standards' terms |
| Packet.ParseFits | hw5/HW5_1_5.c:191-341 | every length of an accepted frame lies inside the received bytes; the oversize return of transport_checksum cannot be reached |
| PacketTheorems.LayoutIs | hw5/HW5_1_5.c:206-349 | an accepted frame's header, datagram and segment lengths are exactly what its own length fields say: IHL and total length, the UDP length field, the TCP data offset |
| Packet.RewriteFrame | hw5/HW5_1_5.c:282-291 | every byte outside the payload and the two checksum fields is unchanged, and the payload is the text, cut or padded |
| Packet.RewriteParses | hw5/HW5_1_5.c:191-263 | the rewritten frame passes the same guards with the same lengths |
| Packet.RewriteVerifies | hw5/HW5_1_5.c:284-291 | the IPv4 header and the segment with its pseudo-header both check to zero after the rewrite |
| Packet.RewriteTwice | hw5/HW5_1_5.c:358-369 | the rewrite is idempotent |
| Packet.ValidHeaderKept | hw5/HW5_1_5.c:362-363 | a header that was valid is unchanged, except that an all-ones checksum becomes zero |
| Packet.SentFrameIsValid | hw5/HW5_1_5.c:282-303 | the bytes sent on, cut at the end of the datagram, pass the same guards with the same layout, and both their checksums are zero |
| PacketTheorems.ForwardedBytes | hw5/HW5_1_5.c:279-303 | byte by byte, in terms of the frame's own fields, what is sent on is the received datagram with the payload replaced by the text, up to the two checksum fields |
| PacketTheorems.ForwardedChecksums | hw5/HW5_1_5.c:284-291 | the header sent, and the standards' pseudo-header followed by the segment sent, check to zero |
| PacketTheorems.NewPayloadIs | hw5/HW5_1_5.c:80-90 | a short payload becomes the front of the text, a long one the text and then blanks |
| Packet.ZeroSentIff | hw5/HW5_1_5.c:287-291 | in terms of the received frame: a zero transport checksum is sent iff pseudo-header, transport header without its checksum, and the new payload sum to a multiple of 65535 |
| UdpZero.ZeroIsSent | hw5/HW5_1_5.c:287-291 | an accepted UDP frame whose rewritten checksum field is zero |
| Modifier.ModifyPayloadSameLength | hw5/HW5_1_5.c:80-90 | only the n payload bytes change, to the text cut or padded with blanks |
| Modifier.TransportChecksum | hw5/HW5_1_5.c:51-78 | the scratch buffer is summed as pseudo-header then segment; 0 when they do not fit |
| Modifier.RepairIp | hw5/HW5_1_5.c:284-285 | zeroing, summing and storing in the buffer seals the IPv4 header in place |
| Modifier.RepairSegment | hw5/HW5_1_5.c:365-369 | zeroing, summing and storing in the buffer seals the segment over the pseudo-header in place |
| Modifier.RewritePrefix | hw5/HW5_1_5.c:282-291 | rewriting the receive buffer rewrites the received bytes and leaves what lies behind them |
| Modifier.FindLayout | hw5/HW5_1_5.c:187-263 | the guards read only received bytes and accept exactly the frames Parse accepts |
| Modifier.UdpLayout | hw5/HW5_1_5.c:236-263 | the guards of the UDP branch |
| Modifier.TcpLayout | hw5/HW5_1_5.c:314-341 | the guards of the TCP branch |
| Modifier.ModifyFrame | hw5/HW5_1_5.c:171-392 | one trip round the loop: rejected frames leave the buffer alone and send nothing; accepted ones are rewritten in place and the first 14 + total length bytes of the buffer sent, to the destination address of the received frame |
| Sender.BuildPacket | hw5/Sender.c:37-94 | the packet has the stated header fields, a header checksum that verifies and is not all ones, a zero UDP checksum and the message |
| Sender.StoreHtons | hw5/Sender.c:69-81 | htons truncates its argument to 16 bits and stores it in network order |
| Sender.ModifierTakesSenderPacket | hw5/Sender.c:66-82 | framed as IPv4, the packet is taken by the modifier iff it listens on receiver_port modulo 65536 |
| Sender.ReceiverSeesModifiedText | hw5/Sender.c:43-52 | sender and modifier in a row: the payload arriving is exactly the text and the IPv4 header is the one sent |
| ChatRoom.RunConsistent | hw4/server_io_uring.c:127-198 | after every run of the room each connection has been sent the log from joining to leaving without its own messages, and numbers follow the order of joining |
| ChatRoom.RoomDelivers | hw4/server_io_uring.c:127-198 | the same for one connection of a run from the empty room, as an equation on its box |
| ChatServer.FirstFree | hw4/server_epoll.c:102-112 | the scan finds the first inactive slot, or there is none |
| ChatServer.Find | hw4/server_epoll.c:135-140 | the scan finds the first active slot with the descriptor, or there is none |
| ChatServer.CString | hw4/server_io_uring.c:172 | the text of a message is the received data up to the first zero byte |
| ChatServer.HandleInv | hw4/server_epoll.c:91-171 | every accept and receive outcome keeps: active slots hold distinct open descriptors and numbers, every open client is in one slot |
| ChatRefinement.SendFromReaches | hw4/server_epoll.c:24-32 | a broadcast appends its message once to every connection in an active slot but the sender's, and to no other |
| ChatRefinement.LookupIsNumber | hw4/server_io_uring.c:161-166 | the looked-up number is that of the connection the descriptor leads to |
| ChatRefinement.AdmitShows | hw4/server_io_uring.c:130-149 | taking a free slot, or closing when there is none, is joining a room of at most 100 |
| ChatRefinement.HandleRefines | hw4/server_epoll.c:91-171 | one outcome handled by scanning slots is one step of the abstract room |
| ChatRuns.RunRefines | hw4/server_epoll.c:84-172 | every run of the table-scanning server is a run of the room, descriptor reuse included |
| ChatRuns.WholeRunDelivery | hw4/server_io_uring.c:127-198 | whole-run delivery for any outcomes: what a connection was sent is the log cut to its stay, without its own messages |
| ChatRuns.HistoryIsLog | hw4/server_epoll.c:126-158 | the log in that statement holds every message and every announced departure of the run, in order, under the client's number, and nothing else |
| Answers.RecvEffect | hw4/server_epoll.c:142-170 | data is relayed to every other active client, the end of the stream announced to them, an error not; after the end and after an error the client's slot and descriptor are given up, and no other |
| Answers.AcceptEffect | hw4/server_io_uring.c:128-155 | a new descriptor gets the lowest free slot and the next number, or is closed at once when there is none; no other slot changes |
| ServerCode.Server.BroadcastMsg | hw4/server_epoll.c:24-32 | the loop over the table makes exactly the sends of SendFrom, in slot order |
| ServerCode.Server.AddClient | hw4/server_io_uring.c:131-142 | the loop fills the first free slot and counts the connection, or changes nothing |
| ServerCode.Server.ClientId | hw4/server_epoll.c:133-140 | the loop returns the number in the first active slot with the descriptor, or -1 |
| ServerCode.Server.Deactivate | hw4/server_io_uring.c:189-194 | the loop deactivates the first active slot with the descriptor and nothing else |
| ServerCode.Server.Register | hw4/server_io_uring.c:128-155 | an accepted descriptor is opened and given a slot, or closed again: the accept outcome |
| ServerCode.Server.Relay | hw4/server_epoll.c:126-170 | number looked up, message or departure broadcast, client closed and cleared on end and error: the receive outcome, whose effect is RecvEffect |
| Epoll.OneEvent | hw4/server_epoll.c:91-170 | handling one event, even one that closes or accepts, leaves the meaning of the batch's other events alone |
| Epoll.BatchSafe | hw4/server_epoll.c:85-171 | throughout a batch every remaining event names the listener or a client still on the connection it had when epoll_wait returned |
| Epoll.FollowIsOpen | hw4/server_epoll.c:120-161 | the interest list stays the listener plus the open client descriptors |
| Epoll.EpollRunIsOutcomes | hw4/server_epoll.c:84-172 | every run of batches is a legal sequence of outcomes handled one by one |
| Epoll.EpollServer.AcceptClient | hw4/server_epoll.c:93-125 | the listener's branch is the accept outcome, and registers the client iff it was added |
| Epoll.EpollServer.ServeClient | hw4/server_epoll.c:126-170 | the client branch is the receive outcome, and unregisters on end and error |
| Epoll.EventEffect | hw4/server_epoll.c:93-170 | the same for every event of the epoll server |
| Epoll.EpollServer.HandleEvent | hw4/server_epoll.c:93-170 | the loop body over the array does that |
| Epoll.EpollServer.HandleBatch | hw4/server_epoll.c:91-171 | the loop over a batch handles its outcomes in order and keeps the server valid |
| Epoll.EpollServer.Serve | hw4/server_epoll.c:84-172 | the server loop over any batches |
| Uring.CompletionIsLegal | hw4/server_io_uring.c:117-127 | a completed receive belongs to a client that is still open |
| Uring.TagsAfter | hw4/server_io_uring.c:47-73 | every IoRequest object is outstanding or freed, exactly once, after any completion |
| Uring.FdsAfter | hw4/server_io_uring.c:127-198 | after any completion one request is outstanding for the listener and one for each open client, and no other |
| Uring.CompleteOwned | hw4/server_io_uring.c:117-199 | request ownership is kept by every completion, which is a legal outcome |
| Uring.OwnedBounds | hw4/server_io_uring.c:47-73 | at most 101 requests are outstanding; no two share a descriptor or an object |
| Uring.OwnedCovers | hw4/server_io_uring.c:117-199 | an accept is outstanding, and receives are outstanding for exactly the open clients |
| Uring.LookupNeverFails | hw4/server_io_uring.c:158-166 | the number looked up for a completed receive is in 1..total_connections, never -1 |
| Uring.UringRunIsOutcomes | hw4/server_io_uring.c:117-199 | ownership holds at every loop head of every run, and the run is its outcomes handled one by one |
| Uring.UringServer.constructor | hw4/server_io_uring.c:79-114 | the first accept request establishes ownership |
| Uring.UringServer.IssueRequest | hw4/server_io_uring.c:47-57 | a fresh object is submitted through an entry that has to be there |
| Uring.UringServer.ReuseRequest | hw4/server_io_uring.c:59-73 | the completed object is submitted again |
| Uring.UringServer.OnAccept | hw4/server_io_uring.c:127-155 | the accept branch: client and first receive if there is room, always a new accept, then free |
| Uring.UringServer.OnRecv | hw4/server_io_uring.c:156-198 | the receive branch: broadcast and reuse, or announce, close, clear and free |
| Uring.CompletionEffect | hw4/server_io_uring.c:127-198 | and for every completion of the io_uring server |
| Uring.UringServer.OnCompletion | hw4/server_io_uring.c:117-199 | one trip round the completion loop is Complete, does what the answer asks for and keeps ownership |
| Uring.UringServer.Serve | hw4/server_io_uring.c:117-199 | the server loop over any completions |
| ServersAgree.SameOutcomesSameServer | hw4/server_epoll.c:91-171 | from the same outcomes both servers hold the same table, have sent the same messages, and are the same room run |
| ServersAgree.EpollDelivers | hw4/server_epoll.c:84-172 | over any batches, each connection of the epoll server was sent the log cut to its stay, without its own messages |
| ServersAgree.UringDelivers | hw4/server_io_uring.c:117-199 | over any completions, each connection of the io_uring server was sent the log cut to its stay, without its own messages |
| ServersAgree.UringFollowsEpoll | hw4/server_io_uring.c:117-199 | for every run of the epoll server the io_uring server has one that ends in the same table and outputs |
| ServersAgree.EpollFollowsUring | hw4/server_epoll.c:84-172 | and the other way round |
| ThreadsSafety.ClearsOwnSlot | hw4/server_thread.c:72-79 | the scan that clears by descriptor clears the handler's own slot and no other |
| ThreadsSafety.SendDeliveredTo | hw4/server_thread.c:28-34 | one send step inside a broadcast keeps delivery exact for every connection |
| ThreadsTheorems.NextSound | hw4/server_thread.c:25-160 | every move of every thread keeps the invariant |
| ThreadsTheorems.ReachableSound | hw4/server_thread.c:25-160 | from the start, the invariant holds after any interleaving of any length |
| ThreadsTheorems.TableSafe | hw4/server_thread.c:128-141 | active slots hold distinct open descriptors and distinct numbers in 1..total_connections |
| ThreadsTheorems.ReachableNumbered | hw4/server_thread.c:128-141 | in every reachable state client numbers are in 1..total_connections and follow the order in which the connections were accepted |
| ThreadsTheorems.MutualExclusion | hw4/server_thread.c:26-36 | at most one thread is inside a broadcast |
| ThreadsTheorems.HeldSends | hw4/server_thread.c:28-34 | while a thread holds the mutex its place in the table moves by its own sends only, whatever moves others make |
| ThreadsTheorems.HolderReleases | hw4/server_thread.c:26-36 | the mutex is given back: its holder can always move, and can unlock after exactly 100 sends of its own, no fewer and no more |
| ThreadsTheorems.UnlockedDelivery | hw4/server_thread.c:25-37 | whenever the mutex is free each connection has been sent the log of its stay, without its own messages |
| ThreadsTheorems.SameOrder | hw4/server_thread.c:25-37 | at every moment, mid-broadcast included, any two clients that have both received two broadcasts hold them in the same order, that of the log |
| ThreadsTheorems.PresentIffActive | hw4/server_thread.c:29 | the clients counted as present are exactly those whose descriptor is in an active slot |
| ThreadsTheorems.BroadcastExact | hw4/server_thread.c:25-37 | a broadcast, with any moves of others in between, reaches exactly the connections in active slots when its lock was taken, once, minus the sender; a connection accepted meanwhile gets nothing |
| OwnNumber.OwnNumberIff | hw4/server_thread.c:47-51 | the exact condition over all interleavings: a handler that has not begun its search is sure to find its own number iff no slot behind its own, active or not, holds its descriptor; the same condition if accept always returns the lowest free descriptor |
| OwnNumber.NoStaleMeansOwnNumber | hw4/server_thread.c:47-51 | without such a slot the handler finds its own number in every interleaving |
| OwnNumber.FoundNumberIff | hw4/server_thread.c:47-51 | in one given interleaving, the number found is its own iff the search never came upon its descriptor in a slot behind its own |
| OwnNumber.SearchRightIff | hw4/server_thread.c:47-51 | an undisturbed search returns the handler's own number iff no later slot, active or not, holds its descriptor |
| OwnNumber.LoggedNumberIff | hw4/server_thread.c:53-70 | what a handler broadcasts names its own number iff its search never came upon its descriptor in a slot behind its own |
| Handler.EndIsAnnounced | hw4/server_thread.c:65-70 | after the end of the stream, whatever the others do, the handler can do nothing but announce its departure, and that is logged |
| Handler.DataIsRelayed | hw4/server_thread.c:53-63 | after data it can do nothing but broadcast the text under the number it found, and that is logged |
| Handler.ErrorIsSilent | hw4/server_thread.c:53-79 | after an error it logs nothing and can only give up its slot |
| Handler.AfterBroadcasting | hw4/server_thread.c:53-81 | after a broadcast, whatever the others do, the handler receives again iff it was a message and leaves iff it was its departure |
| Handler.LeavesForGood | hw4/server_thread.c:72-82 | leaving gives up the handler's own slot and no other, then closes its descriptor, still open and its own until then |
| Handler.Admission | hw4/server_thread.c:128-160 | with a free slot a client gets the lowest one and the next number and its handler starts its search; otherwise its descriptor is closed; the loop accepts again |
| Handler.SomeoneMoves | hw4/server_thread.c:25-160 | no handler is ever stuck: it can move, or it waits for the mutex and the holder can |
| WrongNumber.ThirdClientIsMisled | hw4/server_thread.c:47-51 | a run from the start, every accept returning the lowest free descriptor, in which the third client finds number 2 |
| WrongNumber.ThirdClientSpeaksAsSecond | hw4/server_thread.c:53-60 | its continuation under the same rule: the third client speaks and a fourth is sent its message under number 2 |
| ThreadedServer.ThreadedServer.AdmitOne | hw4/server_thread.c:128-147 | the accept loop's critical section over the shared array is the Admit move |
| ThreadedServer.ThreadedServer.ScanSlotOnce | hw4/server_thread.c:47-51 | one slot of the unlocked search is the ScanSlot move |
| ThreadedServer.ThreadedServer.SendSlotOnce | hw4/server_thread.c:28-34 | one slot of a broadcast is the SendSlot move |
| ThreadedServer.ThreadedServer.ClearOwnSlot | hw4/server_thread.c:72-79 | the handler's last critical section is the Clear move |
| ThreadedServer.ThreadedServer.Interleave | hw4/server_thread.c:25-160 | any interleaving of these steps over the shared state is the run on values and keeps the invariant |

## Left out

- FileCopy.KernelEffect: a failed or short read leaves the rest of the buffer as it was, and a request touches memory and file when it completes; the code looks at neither in between.
- FileCopy.FillSlot: file offsets are unbounded integers; the 64-bit sum `read_offset + SIZE` cannot overflow for files up to 2^63 - 65537 bytes.
- AsyncCopy.AsyncIo: the `ret < 0` break after waiting (hw3/hw3_1/HW3_1.c:140), failed opens and the clean-up code are not modelled; `ENTRY` is at least 1.
- Packet.ZeroSentIff: the rule of RFC 768 that a computed zero is sent as 0xFFFF is not claimed, because the code does not apply it.
- ChatServer.Send: partial and failing sends to open descriptors are not modelled.
- ChatServer.Handle: the client address stored in a slot is never read and is omitted; `total_connections` is an unbounded integer; a message is a datatype value, not the formatted string.
- Epoll.EpollServer.AcceptClient: the branch in which registering the new descriptor fails (hw4/server_epoll.c:122-125) leaves an active slot with a closed descriptor and is assumed away.
- Threads.ScanOne: descriptor and number of one slot are read in one step, and an admission writes its slot in one step; the data race between the two inside a slot is not modelled.
- Threads.Enabled: a failing `accept` ends the process and is not a move; thread creation succeeds.
- Threads: fairness and termination of the servers are not stated; all results are about every finite run.
- Socket, ring and epoll set-up, promiscuous mode, command lines, printing, timing and `system()` calls: foreign calls.
- `multiplication()` in hw3 touches no copy state; hw3/hw3_2/HW3_2.c has the same copy loop and is covered by the same model.
- hw4/client.c and hw5/Receiver.c are loops over foreign calls.
- hw1 times reads and writes of fixed-size files, hw2 lists directories and formats permission bits, hw5/HW5_1.c counts packets by protocol and shows the first few that match; none of them keeps state that a protocol or an invariant depends on.
