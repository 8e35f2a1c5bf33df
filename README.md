# packet_sender worker engines, modelled in Dafny

packet_sender is a Linux traffic generator. Its worker threads configure
`AF_PACKET` raw sockets and then transmit or receive as fast as they can,
counting errors, bytes and frames in a per-thread `struct thd_opt`. This
project models the two I/O engines of the worker:

- `src/packet_mmsg.c`, the batched engine. It has:
  - the Internet checksum `csum`;
  - the frame builder `make_udp_packet` / `build_udp_packet`, which writes a
    42-byte Ethernet II + IPv4 + UDP header;
  - the transmit loop `mmsg_tx`, with its slot setup, its round-robin over
    1024-entry windows of the message vector and its accounting;
  - the receive loop `mmsg_rx`, with its slot scan;
  - the socket setup `mmsg_sock` and the dispatch `mmsg_init`.
- `src/packet_msg.c`, the single-message engine: `msg_sock`, `msg_init` and
  the loops `msg_rx` and `msg_tx`.

The model follows the C code's form:

- `struct thd_opt` is the class `Worker.ThdOpt`, whose counter fields the loop
  methods update in place.
- `csum` is a `while` loop over an array, proved against the specification
  function `InternetChecksum.Checksum`.
- The frame builders store bytes into a caller's `array` at an offset.
- The transmit slot setup fills an arena array and an `iov` array in a `for`
  loop.
- Every `while(1)` loop becomes a loop over a finite trace of syscall
  results. Its contract ties the final counters, and the vector's `msg_len`
  fields, to a function over that trace. Lemmas about that function state
  the accounting laws for any number of iterations.

Fixed assumptions:

- The host is little-endian (x86-64). `htons` swaps bytes. A `uint16_t` or
  `uint32_t` stored through a struct field lands least significant byte
  first.
- The kernel is an oracle. A socket-setup step's result is given by a
  function `Op -> int`. A `recvmmsg`/`sendmmsg` call is given as its return
  value plus the `msg_len` values it stores for the messages it transferred.

Modules, in dependency order:

| module | file | contents |
|---|---|---|
| `Bytes` | Bytes.dfy | C integer widths, `htons`, byte orders |
| `InternetChecksum` | Checksum.dfy | `csum`, with RFC 1071 one's-complement arithmetic as the reference |
| `UdpFrame` | UdpFrame.dfy | `build_udp_packet`, `make_udp_packet`, a decoder for the header |
| `Worker` | Worker.dfy | `struct thd_opt` and its counters |
| `SockSetup` | SockSetup.dfy | the ordered configuration steps shared by both engines |
| `MmsgWindow` | MmsgWindow.dfy | the window scheduler of `mmsg_tx` |
| `MmsgSlots` | MmsgSlots.dfy | the port law and slot setup of `mmsg_tx` |
| `PacketMmsg` | PacketMmsg.dfy | `mmsg_rx`, `mmsg_tx`, `mmsg_sock`, `mmsg_init` |
| `PacketMsg` | PacketMsg.dfy | `msg_rx`, `msg_tx`, `msg_sock`, `msg_init` |

## Model

| member | source | states |
|---|---|---|
| Bytes.Trunc16 | src/packet_mmsg.c:246 | converting an `int` to `uint16_t` keeps values in range and otherwise reduces modulo 2^16 |
| Bytes.Htons | src/packet_mmsg.c:256-258 | `htons` on the little-endian host exchanges the high and low bytes |
| Bytes.HostOrderOfHtons | src/packet_mmsg.c:256-258 | storing `htons(x)` through a 16-bit header field puts `x` on the wire in network byte order |
| Bytes.HostOrder32Reads | src/packet_mmsg.c:251-252 | the four bytes of a `uint32_t` address store, read back in host order, are that address |
| InternetChecksum.Csum | src/packet_mmsg.c:214-235 | the loop returns `Checksum` of exactly the `nbytes` bytes at `ptr`: 16-bit words summed, a trailing odd byte padded with zero, two folds, complement |
| InternetChecksum.FoldAndComplement | src/packet_mmsg.c:230-232 | the two folds and the complement give `0xffff - Fold(sum)` truncated to 16 bits, which for an accumulator below 2^32 is the complement of its one's-complement residue |
| InternetChecksum.ChecksumIsComplementOfOnesSum | src/packet_mmsg.c:219-234 | for every region up to 64 KiB, `csum` is the complement of the RFC 1071 end-around-carry sum of the words, which covers the 4-, 8- and 20-byte callers |
| InternetChecksum.OnesSumIsResidue | src/packet_mmsg.c:220-231 | adding words one at a time with end-around carry gives the residue of the plain sum modulo 0xffff |
| InternetChecksum.FoldIsResidue | src/packet_mmsg.c:230-231 | the two folds reduce any accumulator below 2^32 to that residue |
| InternetChecksum.ChecksumRoundTrip | src/packet_mmsg.c:214-235 | filling a zeroed, aligned checksum word of a region with the region's `csum` makes `csum` of the region 0 |
| UdpFrame.PortSum | src/packet_mmsg.c:262-264 | the `udp_data` words holding the two ports in network order are checksummed together |
| UdpFrame.UdpCheckSteps | src/packet_mmsg.c:264-268 | the port checksum shifted left by 16 is 0 in the 16-bit field, and the fold of line 268 leaves the field unchanged |
| UdpFrame.CombineUdpCheck | src/packet_mmsg.c:264-269 | the field ends as 0xffff minus the 16-bit sum of the two address checksums and the network-order UDP length |
| UdpFrame.UdpChecksumField | src/packet_mmsg.c:262-269 | the UDP checksum field computed from the addresses already stored in the IP header equals `UdpCheck(saddr, daddr, udp_len)` |
| UdpFrame.UdpCheckIgnoresPorts | src/packet_mmsg.c:262-269 | two frames that differ only in their ports carry the same UDP checksum field and the same first 34 bytes |
| UdpFrame.BuildUdpPacket | src/packet_mmsg.c:238-275 | the 28 bytes at the buffer are the IPv4 header (checksum over the header with a zeroed field) and the UDP header; no other byte changes |
| UdpFrame.StoreEthHeader | src/packet_mmsg.c:320-343 | the 14 bytes at the frame are destination MAC f2:01:0a:32:c8:01, the local MAC and EtherType 08 00; no other byte changes |
| UdpFrame.MakeUdpPacket | src/packet_mmsg.c:320-346 | the 42 bytes at the frame are `Frame(ether_len, sport, dport, mac, ip, id)`; no other byte of the buffer changes |
| UdpFrame.DecodeEthernet | src/packet_mmsg.c:320-343 | a built frame decodes to destination MAC f2:01:0a:32:c8:01, the local MAC as source, EtherType 0x0800 |
| UdpFrame.DecodeIpFields | src/packet_mmsg.c:243-250 | a built frame decodes to version 4, header length 5, TOS 0, total length `ether_len - 14` modulo 2^16, the given id, no fragmentation, TTL 64, protocol 17 |
| UdpFrame.DecodeAddresses | src/packet_mmsg.c:251-252 | bytes 26-29 are the local IP and bytes 30-33 the destination 0x6482320a, both as host-order `uint32_t` stores |
| UdpFrame.DecodeUdpHeader | src/packet_mmsg.c:256-269 | a built frame decodes to the given ports, UDP length `ether_len - 34` modulo 2^16, and the UDP checksum field `UdpCheck` |
| UdpFrame.DstAddrOnWire | src/packet_mmsg.c:345 | the destination address goes on the wire as 10.50.130.100 |
| UdpFrame.IpHeaderChecks | src/packet_mmsg.c:253-272 | `csum` recomputed over the 20-byte IP header of a built frame, with the checksum field filled in, is 0 |
| MmsgSlots.PortRanges | src/packet_mmsg.c:366-371 | source ports run through 10000..59999; while the destination port does not wrap it is `12355 + thread_num + i/50000` |
| MmsgSlots.PortsIdentifySlot | src/packet_mmsg.c:370-371 | while destination ports do not wrap, two different slots of a worker never share both ports |
| MmsgSlots.PortExamples | src/packet_mmsg.c:366-371 | worker 0: slot 0 uses ports 10000/12355 and slot 50000 uses 10000/12356 |
| MmsgSlots.BuildSlots | src/packet_mmsg.c:366-382 | slot i's frame is built at arena offset `i*frame_sz` with its own ports and IP id, and `iov[i]` covers it with length `frame_sz` |
| MmsgSlots.BuildSlot | src/packet_mmsg.c:367-381 | one pass of the slot loop builds slot i's frame and `iov[i]` and keeps every earlier slot and `iov` entry |
| MmsgWindow.WindowAt | src/packet_mmsg.c:410-418 | every window requested lies inside the message vector |
| MmsgWindow.IndexBefore | src/packet_mmsg.c:395-417 | `index` never exceeds `loop_cnt` |
| MmsgWindow.IndexCycles | src/packet_mmsg.c:395-417 | before call k, `index` is `k mod (loop_cnt + 1)` |
| MmsgWindow.RoundTilesVector | src/packet_mmsg.c:384-418 | with more than 1024 entries, one round requests full windows at offsets 0, 1024, ... and then the remainder, tiling the vector exactly, and the next call starts again at offset 0 |
| MmsgWindow.ShortVectorRequestsNothing | src/packet_mmsg.c:384-414 | with at most 1024 entries every call requests 0 messages at offset 0 |
| MmsgWindow.Requests2500 | src/packet_mmsg.c:384-418 | 2500 entries: requests of 1024, 1024 and 452 messages, repeating |
| MmsgWindow.Requests2048 | src/packet_mmsg.c:384-418 | 2048 entries: requests of 1024, 1024 and 0 messages |
| PacketMmsg.RxCountsIgnoreReturn | src/packet_mmsg.c:120-133 | the receive bytes and frames after a call do not depend on its return value; the error count rises by one exactly when it is -1 |
| PacketMmsg.RxStaleLengthsCountAgain | src/packet_mmsg.c:128-133 | a call that receives nothing counts again every length left in the vector |
| PacketMmsg.RxStaleExample | src/packet_mmsg.c:120-133 | one 60-byte frame, then an empty call, are counted as 2 frames and 120 bytes |
| PacketMmsg.RxRunCounts | src/packet_mmsg.c:112-135 | over any number of receive calls the error count rises by the number of failed calls, no counter decreases and the transmit counters stay put |
| PacketMmsg.RxScan | src/packet_mmsg.c:128-133 | the slot scan adds the sum of the nonzero `msg_len` values to `rx_bytes` and their number to `rx_frms`, nothing else |
| PacketMmsg.RxBatchStep | src/packet_mmsg.c:120-133 | one iteration of `mmsg_rx` leaves the counters and `msg_len` fields that `RxBatch` describes |
| PacketMmsg.FillRxIov | src/packet_mmsg.c:102-110 | every `iov` entry points at the start of the shared receive buffer with length `frame_sz` |
| PacketMmsg.MmsgRx | src/packet_mmsg.c:91-137 | the worker is marked started, every `iov` entry points at the receive buffer with the frame size, and the counters end as `RxRun` from zeroed `msg_len` fields |
| PacketMmsg.TxBytesFromVectorStart | src/packet_mmsg.c:428-430 | the bytes counted for a window that starts at or after entry `msglen` do not depend on what that call sent: they come from the start of the vector |
| PacketMmsg.TxBatchCounts | src/packet_mmsg.c:421-432 | one `sendmmsg` call raises `sk_err` by one exactly when it returns -1, otherwise `tx_frms` by its return value, and leaves the receive counters alone |
| PacketMmsg.TxRunCounts | src/packet_mmsg.c:399-434 | over any number of transmit calls the error count rises by the failed calls, the frame count by the messages reported sent, no counter decreases, the receive counters stay put |
| PacketMmsg.ShortVectorNeverTransmits | src/packet_mmsg.c:384-434 | with at most 1024 entries the transmit counters never move and only errors are counted |
| PacketMmsg.TxCountBytes | src/packet_mmsg.c:428-430 | `tx_bytes` rises by the `msg_len` of the first `msglen` entries of the vector, nothing else changes |
| PacketMmsg.TxBatchStep | src/packet_mmsg.c:421-432 | one `sendmmsg` call and its accounting leave the counters and `msg_len` fields that `TxBatch` describes |
| PacketMmsg.LoopCounts | src/packet_mmsg.c:384-389 | `loop_cnt` and `last_cnts` are the quotient and remainder of `msgvec_vlen` by 1024 when the vector is longer than 1024, and 0 otherwise |
| PacketMmsg.NextWindow | src/packet_mmsg.c:410-417 | the statements at the top of the loop compute the window for `index` and the next `index` |
| PacketMmsg.TxIteration | src/packet_mmsg.c:410-432 | one iteration requests the window for `index`, advances or wraps `index`, and leaves the state `TxBatch` describes for that window and call |
| PacketMmsg.TxSendLoop | src/packet_mmsg.c:384-434 | the windows requested are `Requests(msgvec_vlen, n)` and the counters end as `TxRun` over the calls |
| PacketMmsg.MmsgTx | src/packet_mmsg.c:348-436 | without the arena nothing changes; otherwise the worker is marked started, the requests are the scheduler's windows and the counters end as `TxRun` from zeroed `msg_len` fields |
| PacketMmsg.MmsgSock | src/packet_mmsg.c:141-211 | the socket handle is the create result, the status is `Status` of the plan with QLEN, and the steps issued are exactly `Attempted` |
| PacketMmsg.MmsgInit | src/packet_mmsg.c:73-81 | the socket handle is the create result; no loop on a failed configuration, otherwise the receive loop in RX mode and the transmit loop in TX mode, with that loop's counters; the worker is marked started once a loop runs, and not when the arena allocation fails |
| SockSetup.SharedSteps | src/packet_msg.c:118-154 | create, BIND, QDISC, LOSSY in TX mode and TS in order, returning at the first fatal failure with the steps issued |
| SockSetup.SucceedsIff | src/packet_mmsg.c:141-211 | configuration succeeds exactly when no planned step fails fatally, and then every planned step is issued |
| SockSetup.FailureStopsAtFirstFatal | src/packet_msg.c:118-137 | a failed configuration issues a prefix of the plan ending at the first fatal failure, and no later step runs |
| SockSetup.TimestampNeverFatal | src/packet_msg.c:152-154 | the TS result never changes the status or the steps issued |
| SockSetup.PlanShape | src/packet_mmsg.c:141-211 | create, BIND, QDISC come first; LOSSY is planned exactly in TX mode, FANOUT exactly with more than one thread, QLEN exactly in the batched engine and last |
| PacketMsg.RxRunTotals | src/packet_msg.c:100-107 | after any number of `msg_rx` iterations, errors rise by the failed calls, bytes by the bytes returned, frames by the successful calls, and the transmit counters stay put |
| PacketMsg.TxRunTotals | src/packet_msg.c:197-204 | the same for `msg_tx` on the transmit counters |
| PacketMsg.AlwaysFailing | src/packet_msg.c:100-107 | on a socket that always fails, n iterations of either loop raise `sk_err` by exactly n and change nothing else |
| PacketMsg.RunsNeverDecrease | src/packet_msg.c:100-107 | no counter ever decreases in either loop |
| PacketMsg.MsgRx | src/packet_msg.c:77-111 | the worker is marked started and the counters end as `RxRun` over the results of `recvmsg` |
| PacketMsg.MsgTx | src/packet_msg.c:178-208 | the worker is marked started and the counters end as `TxRun` over the results of `sendmsg` |
| PacketMsg.MsgSock | src/packet_msg.c:115-174 | the socket handle is the create result, the status is `Status` of the plan without QLEN, and the steps issued are exactly `Attempted` |
| PacketMsg.MsgInit | src/packet_msg.c:59-67 | the socket handle is the create result; no loop on a failed configuration, otherwise the receive loop in RX mode and the transmit loop in TX mode, with that loop's counters, and the worker is then marked started |

## Left out

- `get_eth0_ip_mac` (src/packet_mmsg.c:277-318) is not modelled. It asks the
  kernel for the address of "eth0" through `ioctl`. The local MAC and IP are
  parameters of `MakeUdpPacket` and `BuildSlots`. The model gives every slot
  the same MAC and IP.
- The failure paths of `get_eth0_ip_mac` are not modelled; line 339 ignores
  its result. In every failure the source MAC bytes keep whatever the arena
  held. When `socket` (src/packet_mmsg.c:283-286) or the first `ioctl`
  (src/packet_mmsg.c:292-296) fails, `src_ip` stays 0. When only the second
  `ioctl` fails (src/packet_mmsg.c:305-309), line 302 has already stored the
  interface address, so the IP header is complete and only the MAC is missing.
- `rand()` for the IP identification is nondeterministic. It is a parameter:
  `id`, and `ids[i]` for slot i.
- The syscalls `socket`, `recvmmsg`, `sendmmsg`, `recvmsg` and `sendmsg`, and
  `sock_op`, `tperror` and `thd_cleanup`, are defined outside these files.
  Their results are inputs.
- `PacketMmsg.MmsgRx`, `PacketMmsg.MmsgTx` and `PacketMmsg.MmsgInit` require
  the kernel to keep its side of the contract, as `RxCallOk` and `TxCallOk`
  state. Each call stores at most one length per message in the vector (or
  window) and returns -1 or that count. A failed `sendmmsg` stores nothing.
- Threads are not modelled: `SYS_gettid`, asynchronous cancellation, the
  cleanup handler and `pthread_exit`. The `while(1)` loops end only by
  cancellation, so they are modelled over any finite number of iterations.
- `printf`, `sleep` and the verbose branches have no effect on the state and
  are not modelled.
- The `malloc` of the transmit arena is the boolean `arenaOk` of
  `PacketMmsg.MmsgTx`. On failure the function returns without sending.
- Payload bytes are not modelled. Only the 42 header bytes of each slot are
  written; the bytes after them stay as they were.
- Counter widths are not modelled. The declaration of `struct thd_opt` is not
  part of this model, so the counters are unbounded naturals.
- The `long` accumulator of `csum` and the `int32_t` return values are
  unbounded as well. The checksum lemmas hold for regions up to 64 KiB, far
  above the 20 bytes `csum` is called on.
- `MmsgSlots.BuildSlots` and `PacketMmsg.MmsgTx` require `frame_sz >= 42`.
  With smaller frames the C code writes each header into the next slot, and
  past the end of the arena for the last one. They also do not model the
  32-bit wrap-around of `i * frame_sz` and `msgvec_vlen * frame_sz`.
- `PacketMmsg.MmsgTx`: the arena is local to the function, so its contract
  does not mention the frames. `MmsgSlots.BuildSlots` states them.
- The `msghdr`/`mmsghdr` bookkeeping is not modelled: `msg_iov` pointing at
  `iov[i]`, `msg_iovlen = 1`, and the NULL name and control fields. The
  `iov` entries are modelled, as offsets into the arena or the receive
  buffer.
- The model keeps three behaviours of the code that look unintended:
  - The UDP checksum field is not the RFC 768 checksum. It covers only the
    two addresses and the UDP length: the port sum is shifted out of the
    16-bit field, and the payload and protocol number are never added
    (src/packet_mmsg.c:262-269). `UdpFrame.UdpCheckIgnoresPorts` states the
    consequence.
  - A successful `sendmmsg` adds the `msg_len` of entries 0..`msglen` of the
    whole vector (src/packet_mmsg.c:428-430), not of the window just sent.
  - A vector of at most 1024 entries leaves `loop_cnt` and `last_cnts` at 0,
    so every call asks for 0 messages (src/packet_mmsg.c:384-389).
