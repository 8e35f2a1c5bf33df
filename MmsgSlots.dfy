/**
 * The slot setup of `mmsg_tx` (src/packet_mmsg.c): one frame per entry of the
 * message vector, built into the `pkt_buffers` arena at `i * frame_sz`, with
 * ports computed from the slot number so that every slot is a distinct flow.
 */
module MmsgSlots {
  import opened Bytes
  import opened UdpFrame
  import MmsgWindow

  /** One `struct iovec` of the transmit vector: `base` is the offset of the frame
      in the arena, `len` its length. */
  datatype IoVec = IoVec(base: nat, len: nat)

  /** `src_port` of slot `i`. */
  function SrcPort(i: nat): uint16
  {
    10000 + i % 50000
  }

  /** `dst_port` of slot `i` of worker `threadNum`, as converted to the `uint16_t`
      parameter of `make_udp_packet`. */
  function DstPort(threadNum: nat, i: nat): uint16
  {
    Trunc16(12345 + threadNum + 10 + i / 50000)
  }

  /** Source ports run through 10000..59999, and while the destination port does not
      wrap it is the worker's base port plus one for every 50000 slots. */
  lemma PortRanges(threadNum: nat, i: nat)
    ensures 10000 <= SrcPort(i) < 60000
    ensures 12355 + threadNum + i / 50000 < 0x1_0000 ==> DstPort(threadNum, i) == 12355 + threadNum + i / 50000
  {
  }

  /** While the destination ports do not wrap, no two slots of a worker share both ports. */
  lemma PortsIdentifySlot(threadNum: nat, i: nat, j: nat)
    requires i != j
    requires 12355 + threadNum + i / 50000 < 0x1_0000 && 12355 + threadNum + j / 50000 < 0x1_0000
    ensures SrcPort(i) != SrcPort(j) || DstPort(threadNum, i) != DstPort(threadNum, j)
  {
    assert i == i / 50000 * 50000 + i % 50000;
    assert j == j / 50000 * 50000 + j % 50000;
  }

  /** Worker 0: slot 0 sends from port 10000 to 12355, slot 50000 from 10000 to 12356. */
  lemma PortExamples()
    ensures SrcPort(0) == 10000 && DstPort(0, 0) == 12355
    ensures SrcPort(50000) == 10000 && DstPort(0, 50000) == 12356
  {
  }

  /** `pkt_buffer` of slot `j`: the slot's offset `j * frame_sz` in the arena. */
  function SlotBase(fs: nat, j: nat): nat
  {
    j * fs
  }

  /** The 42 header bytes of slot `j` in arena contents `s` of slot size `fs`, or
      nothing when the slot does not fit. */
  function SlotBytes(s: seq<uint8>, fs: nat, j: nat): seq<uint8>
  {
    if SlotBase(fs, j) + HeaderLen <= |s| then s[SlotBase(fs, j)..SlotBase(fs, j) + HeaderLen] else []
  }

  /** The header of slot `j`. */
  function SlotFrame(fs: nat, threadNum: nat, mac: seq<uint8>, ip: uint32, id: uint16, j: nat): seq<uint8>
    requires |mac| == 6
  {
    Frame(fs, SrcPort(j), DstPort(threadNum, j), mac, ip, id)
  }

  /** Changing only bytes at or after slot `n` keeps the slots before it. */
  lemma SlotsKept(a: seq<uint8>, b: seq<uint8>, n: nat, fs: nat)
    requires fs >= HeaderLen && |a| == |b|
    requires forall k :: 0 <= k < |a| && k < n * fs ==> a[k] == b[k]
    ensures forall j :: 0 <= j < n ==> SlotBytes(a, fs, j) == SlotBytes(b, fs, j)
  {
    forall j | 0 <= j < n
      ensures SlotBytes(a, fs, j) == SlotBytes(b, fs, j)
    {
      MmsgWindow.MulStep(n, j, fs);
      if j * fs + HeaderLen <= |a| {
        assert forall k :: j * fs <= k < j * fs + HeaderLen ==> a[k] == b[k];
      }
    }
  }

  /** The slot loop of `mmsg_tx`: frame `i` is built at offset `i * frame_sz` of the
      arena with its ports and the IP id `ids[i]`, and `iov[i]` points at it with the
      full frame size. `mac` and `ip` are the local addresses of the egress interface. */
  method BuildSlots(arena: array<uint8>, iov: array<IoVec>, vlen: nat, fs: nat, threadNum: nat,
                    mac: seq<uint8>, ip: uint32, ids: seq<uint16>)
    requires |mac| == 6 && |ids| == vlen && fs >= HeaderLen
    requires arena.Length == vlen * fs && iov.Length == vlen
    modifies arena, iov
    ensures forall i :: 0 <= i < vlen ==> iov[i] == IoVec(SlotBase(fs, i), fs)
    ensures forall i :: 0 <= i < vlen ==> SlotBytes(arena[..], fs, i) == SlotFrame(fs, threadNum, mac, ip, ids[i], i)
  {
    for i := 0 to vlen
      invariant forall j :: 0 <= j < i ==> iov[j] == IoVec(SlotBase(fs, j), fs)
      invariant forall j :: 0 <= j < i ==> SlotBytes(arena[..], fs, j) == SlotFrame(fs, threadNum, mac, ip, ids[j], j)
    {
      BuildSlot(arena, iov, vlen, fs, threadNum, mac, ip, ids, i);
    }
  }

  /** One pass of the slot loop: frame `i` is built in its slot and `iov[i]` set,
      while the slots and entries before `i` are kept. */
  method BuildSlot(arena: array<uint8>, iov: array<IoVec>, vlen: nat, fs: nat, threadNum: nat,
                   mac: seq<uint8>, ip: uint32, ids: seq<uint16>, i: nat)
    requires |mac| == 6 && |ids| == vlen && fs >= HeaderLen && i < vlen
    requires arena.Length == vlen * fs && iov.Length == vlen
    requires forall j :: 0 <= j < i ==> iov[j] == IoVec(SlotBase(fs, j), fs)
    requires forall j :: 0 <= j < i ==> SlotBytes(arena[..], fs, j) == SlotFrame(fs, threadNum, mac, ip, ids[j], j)
    modifies arena, iov
    ensures forall j :: 0 <= j < i + 1 ==> iov[j] == IoVec(SlotBase(fs, j), fs)
    ensures forall j :: 0 <= j < i + 1 ==> SlotBytes(arena[..], fs, j) == SlotFrame(fs, threadNum, mac, ip, ids[j], j)
  {
    var pktBuffer := SlotBase(fs, i);
    MmsgWindow.MulStep(vlen, i, fs);
    ghost var before := arena[..];
    MakeUdpPacket(arena, pktBuffer, SrcPort(i), DstPort(threadNum, i), fs, mac, ip, ids[i]);
    SlotsKept(before, arena[..], i, fs);
    assert SlotBytes(arena[..], fs, i) == arena[pktBuffer..pktBuffer + HeaderLen];
    iov[i] := IoVec(pktBuffer, fs);
  }
}
