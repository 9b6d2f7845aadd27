/** Sending a datagram as IPv6 fragments (section 4.5 of RFC 8200). Headers are records; the
    offset field keeps its 16-bit encoding. */
module Fragments {
  import opened Bytes

  const IPV6_HDR_LEN := 40
  const IPV6_ASIZE := 16
  const FRAG_HDR_LEN := 8
  const PAYLOAD_MAX := 65535
  const NEXT_HEADER_FRAGMENT: byte := 0x2C

  /** Room for one packet behind its Ethernet header. */
  const NET_PAYLOAD := 1500

  type uint16 = x: int | 0 <= x < 65536

  datatype BaseHeader = BaseHeader(
    info: seq<byte>, payloadLen: uint16, nextHeader: byte, hopLimit: byte, src: seq<byte>, dest: seq<byte>)

  datatype FragmentHeader = FragmentHeader(nextHeader: byte, offset: uint16, identif: uint32)

  /** A fragment on the wire: payload is what follows the fragment header. */
  datatype Packet = Packet(base: BaseHeader, frag: FragmentHeader, payload: seq<byte>)

  datatype Datagram = Datagram(headers: BaseHeader, payload: seq<byte>)

  predicate ValidDatagram(d: Datagram) {
    |d.payload| <= PAYLOAD_MAX && d.headers.payloadLen == |d.payload| && |d.headers.src| == |d.headers.dest| == IPV6_ASIZE
  }

  /** A number of whole octet groups, the unit of fragment offsets. */
  predicate Octets(n: int) { n % 8 == 0 }

  lemma OctetsSum(m: int, n: int)
    requires Octets(m) && Octets(n)
    ensures Octets(m + n)
  {
  }

  function CheckLength(n: uint16): (r: uint16)
    ensures if n > 8 then Octets(r) && n - 8 < r <= n else r == n
    ensures n == 8 ==> Octets(r)
  {
    if n > 8 then n - n % 8 else n
  }

  // ------------------------------------------------------------ the offset field

  /** The low three bits are cleared, then the lowest is set if more fragments follow. */
  function OffsetField(o: uint16, more: bool): (f: uint16) {
    o - o % 8 + if more then 1 else 0
  }

  function FieldOffset(f: uint16): (o: uint16) { f - f % 2 }

  predicate FieldMore(f: uint16) { f % 2 == 1 }

  lemma FieldRoundTrip(o: uint16, more: bool)
    ensures FieldMore(OffsetField(o, more)) <==> more
    ensures FieldOffset(OffsetField(o, more)) == o <==> Octets(o)
  {
    assert OffsetField(o, more) == 8 * (o / 8) + if more then 1 else 0;
  }

  // ------------------------------------------------------------ the sender

  /** The fragment that carries bytes a to b of the payload of d. */
  function FragmentOf(d: Datagram, identif: uint32, a: nat, b: nat): (p: Packet)
    requires a <= b <= |d.payload| <= PAYLOAD_MAX && b - a + FRAG_HDR_LEN <= PAYLOAD_MAX
  {
    Packet(d.headers.(payloadLen := FRAG_HDR_LEN + b - a, nextHeader := NEXT_HEADER_FRAGMENT),
           FragmentHeader(d.headers.nextHeader, OffsetField(a, b < |d.payload|), identif),
           d.payload[a..b])
  }

  /** A fragment carries its bytes of the payload and the addresses of the datagram; its header tells
      whether more follow, and where it belongs if that is a multiple of 8. */
  method SendFragment(d: Datagram, lenInHeader: uint16, len: uint16, identif: uint32, offset: uint16, nextHeader: byte, more: bool)
    returns (p: Packet)
    requires offset + len <= |d.payload| && IPV6_HDR_LEN + lenInHeader <= NET_PAYLOAD
    ensures |p.payload| == len && d.payload[..offset] + p.payload + d.payload[offset + len..] == d.payload
    ensures p.base.(payloadLen := d.headers.payloadLen, nextHeader := d.headers.nextHeader) == d.headers
    ensures p.base.nextHeader == NEXT_HEADER_FRAGMENT && p.frag.nextHeader == nextHeader && p.frag.identif == identif
    ensures FieldMore(p.frag.offset) <==> more
    ensures FieldOffset(p.frag.offset) == offset <==> Octets(offset)
    ensures |d.payload| <= PAYLOAD_MAX && lenInHeader == FRAG_HDR_LEN + len && nextHeader == d.headers.nextHeader && more == (offset + len < |d.payload|) ==>
              p == FragmentOf(d, identif, offset, offset + len)
  {
    FieldRoundTrip(offset, more);
    var base := d.headers.(payloadLen := lenInHeader, nextHeader := NEXT_HEADER_FRAGMENT);
    var fragOffset := OffsetField(offset, more);
    p := Packet(base, FragmentHeader(nextHeader, fragOffset, identif), d.payload[offset..offset + len]);
  }

  /** The places where a payload of n bytes is cut into pieces of at most most bytes. */
  ghost predicate Cuts(cuts: seq<nat>, n: nat, most: nat) {
    && |cuts| >= 2 && cuts[0] == 0 && cuts[|cuts| - 1] == n
    && (forall k {:trigger cuts[k]} :: 0 <= k < |cuts| - 1 ==> cuts[k] < cuts[k + 1] <= cuts[k] + most && cuts[k + 1] <= n)
  }

  ghost predicate Sent(d: Datagram, identif: uint32, cuts: seq<nat>, sent: seq<Packet>, most: nat)
    requires Cuts(cuts, |d.payload|, most) && |d.payload| <= PAYLOAD_MAX && most <= NET_PAYLOAD
  {
    && |sent| == |cuts| - 1
    && (forall k {:trigger sent[k]} :: 0 <= k < |sent| ==>
          cuts[k] <= cuts[k + 1] <= |d.payload| && cuts[k + 1] - cuts[k] <= NET_PAYLOAD
          && sent[k] == FragmentOf(d, identif, cuts[k], cuts[k + 1]))
  }

  /** Every fragment says where its payload belongs. */
  ghost predicate OffsetsRight(cuts: seq<nat>, sent: seq<Packet>) {
    |sent| < |cuts| && forall k {:trigger sent[k]} :: 0 <= k < |sent| ==> FieldOffset(sent[k].frag.offset) == cuts[k]
  }

  /** What the loop has sent so far. */
  ghost predicate Progress(d: Datagram, identif: uint32, cuts: seq<nat>, sent: seq<Packet>, most: nat)
    requires |d.payload| <= PAYLOAD_MAX && most <= NET_PAYLOAD
  {
    && |cuts| == |sent| + 1 && cuts[0] == 0 && cuts[|sent|] <= |d.payload|
    && (forall k {:trigger cuts[k]} {:trigger sent[k]} :: 0 <= k < |sent| ==>
          && cuts[k] < cuts[k + 1] <= cuts[k] + most && cuts[k + 1] <= cuts[|sent|]
          && sent[k] == FragmentOf(d, identif, cuts[k], cuts[k + 1]))
  }

  ghost predicate Multiples(cuts: seq<nat>, n: nat) {
    forall k {:trigger cuts[k]} :: 0 <= k < n && k < |cuts| ==> Octets(cuts[k])
  }

  lemma ProgressStep(d: Datagram, identif: uint32, cuts: seq<nat>, sent: seq<Packet>, most: nat, next: nat, p: Packet)
    requires |d.payload| <= PAYLOAD_MAX && most <= NET_PAYLOAD && Progress(d, identif, cuts, sent, most)
    requires cuts[|sent|] < next <= cuts[|sent|] + most && next <= |d.payload| && p == FragmentOf(d, identif, cuts[|sent|], next)
    ensures Progress(d, identif, cuts + [next], sent + [p], most)
    ensures Multiples(cuts, |sent|) && Octets(cuts[|sent|]) ==> Multiples(cuts + [next], |sent| + 1)
  {
  }

  lemma ProgressDone(d: Datagram, identif: uint32, cuts: seq<nat>, sent: seq<Packet>, most: nat)
    requires |d.payload| <= PAYLOAD_MAX && most <= NET_PAYLOAD && Progress(d, identif, cuts, sent, most)
    requires |sent| > 0 && cuts[|sent|] == |d.payload|
    ensures Cuts(cuts, |d.payload|, most) && Sent(d, identif, cuts, sent, most)
  {
  }

  /** What one fragment takes of what remains: as much as fits, or the rest cut down to whole octet groups. */
  function Piece(remain: uint16, room: uint16): (len: uint16)
    ensures 0 < remain && 0 < room ==> 0 < len <= remain && len <= room
    ensures len < remain && Octets(room) ==> Octets(len)
  {
    if remain > room then room else CheckLength(remain)
  }

  /** Each piece is as long as that. */
  ghost predicate Sized(cuts: seq<nat>, n: nat, room: uint16)
    requires n <= PAYLOAD_MAX
  {
    forall k {:trigger cuts[k]} :: 0 <= k < |cuts| - 1 ==>
      cuts[k] <= n && cuts[k + 1] == cuts[k] + Piece(n - cuts[k], room)
  }

  /** So all pieces but the last two are as long as fits. */
  lemma AllButTwo(cuts: seq<nat>, n: nat, most: nat, room: uint16)
    requires n <= PAYLOAD_MAX && Cuts(cuts, n, most) && Sized(cuts, n, room)
    ensures forall k {:trigger cuts[k]} :: 0 <= k < |cuts| - 3 ==> cuts[k + 1] - cuts[k] == room
  {
    forall k | 0 <= k < |cuts| - 3 ensures cuts[k + 1] - cuts[k] == room {
      assert cuts[k + 1] < cuts[k + 2] && cuts[k + 2] < cuts[k + 3] <= n;
    }
  }

  lemma SizedNext(cuts: seq<nat>, n: nat, room: uint16, next: nat)
    requires n <= PAYLOAD_MAX && |cuts| > 0 && Sized(cuts, n, room) && cuts[|cuts| - 1] <= n
    requires next == cuts[|cuts| - 1] + Piece(n - cuts[|cuts| - 1], room)
    ensures Sized(cuts + [next], n, room)
  {
    hide Piece;
    var c := cuts + [next];
    forall k | 0 <= k < |cuts| ensures c[k] <= n && c[k + 1] == c[k] + Piece(n - c[k], room) {
      if k < |cuts| - 1 { assert c[k] == cuts[k] && c[k + 1] == cuts[k + 1]; }
    }
  }

  lemma SmallCut(cuts: seq<nat>, n: nat, most: nat)
    requires Cuts(cuts, n, most) && n > most
    ensures |cuts| > 2 && 0 < cuts[1] <= most
  {
  }

  /** The state of the sending loop. */
  ghost predicate Sending(d: Datagram, identif: uint32, cuts: seq<nat>, sent: seq<Packet>, most: nat, room: uint16, offset: uint16, remain: uint16)
    requires |d.payload| <= PAYLOAD_MAX && most <= NET_PAYLOAD
  {
    && Progress(d, identif, cuts, sent, most) && Sized(cuts, |d.payload|, room)
    && |cuts| == |sent| + 1 && cuts[|sent|] == offset && offset + remain == |d.payload|
    && (most >= 8 ==> Multiples(cuts, |sent|) && (remain > 0 ==> Octets(offset)))
  }

  lemma SendingStart(d: Datagram, identif: uint32, most: nat, room: uint16)
    requires |d.payload| <= PAYLOAD_MAX && most <= NET_PAYLOAD
    ensures Sending(d, identif, [0], [], most, room, 0, |d.payload|)
  {
  }

  lemma SendingNext(d: Datagram, identif: uint32, cuts: seq<nat>, sent: seq<Packet>, most: nat, room: uint16, offset: uint16, remain: uint16, p: Packet)
    requires |d.payload| <= PAYLOAD_MAX && 0 < most <= NET_PAYLOAD && room == CheckLength(most) && remain > 0
    requires Sending(d, identif, cuts, sent, most, room, offset, remain)
    requires var len := Piece(remain, room); offset + len <= |d.payload| && p == FragmentOf(d, identif, offset, offset + len)
    ensures var len := Piece(remain, room);
            Sending(d, identif, cuts + [offset + len], sent + [p], most, room, offset + len, remain - len)
  {
    hide Sized, Progress, Multiples, OffsetField, Piece, FragmentOf, Octets, CheckLength;
    var len := Piece(remain, room);
    ProgressStep(d, identif, cuts, sent, most, offset + len, p);
    SizedNext(cuts, |d.payload|, room, offset + len);
    if remain - len > 0 && most >= 8 { OctetsSum(offset, len); }
  }

  lemma PieceIs(remain: uint16, room: uint16)
    requires room > 0
    ensures var len := if remain > room then room else remain; Piece(remain, room) == if len == remain then CheckLength(len) else len
  {
    hide CheckLength;
  }

  lemma SendingDone(d: Datagram, identif: uint32, cuts: seq<nat>, sent: seq<Packet>, most: nat, room: uint16)
    requires |d.payload| <= PAYLOAD_MAX && most <= NET_PAYLOAD && most < |d.payload| && Sending(d, identif, cuts, sent, most, room, |d.payload|, 0)
    ensures Cuts(cuts, |d.payload|, most) && Sent(d, identif, cuts, sent, most)
    ensures forall k {:trigger cuts[k]} :: 0 <= k < |cuts| - 3 ==> cuts[k + 1] - cuts[k] == room
    ensures if most >= 8 then Multiples(cuts, |sent|) else |cuts| > 2 && 0 < cuts[1] < 8
  {
    hide Sized, Progress, Multiples, Cuts, Sent, FragmentOf;
    SendingSome(d, identif, cuts, sent, most, room);
    ProgressDone(d, identif, cuts, sent, most);
    AllButTwo(cuts, |d.payload|, most, room);
    if most < 8 { SmallCut(cuts, |d.payload|, most); }
  }

  lemma SendingSome(d: Datagram, identif: uint32, cuts: seq<nat>, sent: seq<Packet>, most: nat, room: uint16)
    requires |d.payload| <= PAYLOAD_MAX && most <= NET_PAYLOAD && most < |d.payload| && Sending(d, identif, cuts, sent, most, room, |d.payload|, 0)
    ensures |sent| > 0
  {
    hide Sized, Multiples, FragmentOf;
  }

  /** The sending loop ends and cuts the payload into fragments that fit the MTU, all but the last two as
      long as fits; their offset fields are right exactly if the MTU leaves room for eight bytes. A datagram
      that fits the MTU is not sent at all. */
  method FragmentDatagram(d: Datagram, mtu: nat, identif: uint32) returns (sent: seq<Packet>, ghost cuts: seq<nat>)
    requires |d.payload| <= PAYLOAD_MAX && IPV6_HDR_LEN + FRAG_HDR_LEN < mtu <= NET_PAYLOAD
    ensures IPV6_HDR_LEN + |d.payload| <= mtu ==> sent == []
    ensures IPV6_HDR_LEN + |d.payload| > mtu ==>
              && Cuts(cuts, |d.payload|, mtu - IPV6_HDR_LEN - FRAG_HDR_LEN)
              && Sent(d, identif, cuts, sent, mtu - IPV6_HDR_LEN - FRAG_HDR_LEN)
              && (OffsetsRight(cuts, sent) <==> mtu >= IPV6_HDR_LEN + FRAG_HDR_LEN + 8)
              && forall k {:trigger cuts[k]} :: 0 <= k < |cuts| - 3 ==> cuts[k + 1] - cuts[k] == CheckLength(mtu - IPV6_HDR_LEN - FRAG_HDR_LEN)
  {
    hide Sending, Multiples, Cuts, Sent, OffsetsRight, OffsetField, CheckLength, FragmentOf, Octets, Piece;
    sent, cuts := [], [0];
    if IPV6_HDR_LEN + |d.payload| > mtu {
      ghost var most := mtu - IPV6_HDR_LEN - FRAG_HDR_LEN;
      var fragOffset: uint16, mFlag := 0, true;
      var remainLen: uint16 := |d.payload|;
      var maxPayloadLen := CheckLength(mtu - IPV6_HDR_LEN - FRAG_HDR_LEN);
      SendingStart(d, identif, most, maxPayloadLen);
      while remainLen > 0
        invariant Sending(d, identif, cuts, sent, most, maxPayloadLen, fragOffset, remainLen)
        invariant fragOffset + remainLen == |d.payload| && mFlag == (remainLen > 0)
      {
        PieceIs(remainLen, maxPayloadLen);
        var payloadLen := if remainLen > maxPayloadLen then maxPayloadLen else remainLen;
        if payloadLen == remainLen {
          payloadLen := CheckLength(payloadLen);
        }
        var lenInHeader := FRAG_HDR_LEN + payloadLen;
        ghost var remain := remainLen;
        remainLen := remainLen - payloadLen;
        if remainLen == 0 {
          mFlag := false;
        }
        var p := SendFragment(d, lenInHeader, payloadLen, identif, fragOffset, d.headers.nextHeader, mFlag);
        SendingNext(d, identif, cuts, sent, most, maxPayloadLen, fragOffset, remain, p);
        fragOffset := fragOffset + payloadLen;
        sent, cuts := sent + [p], cuts + [fragOffset];
      }
      SendingDone(d, identif, cuts, sent, most, maxPayloadLen);
      OffsetsExact(d, identif, cuts, sent, mtu);
    }
  }

  lemma OffsetsExact(d: Datagram, identif: uint32, cuts: seq<nat>, sent: seq<Packet>, mtu: nat)
    requires 48 < mtu <= NET_PAYLOAD && |d.payload| <= PAYLOAD_MAX && Cuts(cuts, |d.payload|, mtu - 48)
    requires Sent(d, identif, cuts, sent, mtu - 48)
    requires if mtu >= 56 then Multiples(cuts, |sent|) else |cuts| > 2 && 0 < cuts[1] < 8
    ensures OffsetsRight(cuts, sent) <==> mtu >= 56
  {
    hide Cuts, Sent, FieldOffset, OffsetField, FragmentOf;
    SentCount(d, identif, cuts, sent, mtu - 48);
    forall k | 0 <= k < |sent|
      ensures FieldOffset(sent[k].frag.offset) == cuts[k] <==> Octets(cuts[k])
    {
      OffsetAt(d, identif, cuts, sent, mtu - 48, k);
    }
    if mtu < 56 { assert !Octets(cuts[1]); }
  }

  lemma SentCount(d: Datagram, identif: uint32, cuts: seq<nat>, sent: seq<Packet>, most: nat)
    requires most <= NET_PAYLOAD && |d.payload| <= PAYLOAD_MAX && Cuts(cuts, |d.payload|, most) && Sent(d, identif, cuts, sent, most)
    ensures |sent| == |cuts| - 1
  {
  }

  lemma OffsetAt(d: Datagram, identif: uint32, cuts: seq<nat>, sent: seq<Packet>, most: nat, k: nat)
    requires most <= NET_PAYLOAD && |d.payload| <= PAYLOAD_MAX && Cuts(cuts, |d.payload|, most) && Sent(d, identif, cuts, sent, most)
    requires k < |sent| && k < |cuts|
    ensures FieldOffset(sent[k].frag.offset) == cuts[k] <==> Octets(cuts[k])
  {
    assert sent[k] == FragmentOf(d, identif, cuts[k], cuts[k + 1]);
    FieldRoundTrip(cuts[k], cuts[k + 1] < |d.payload|);
  }

  function Payloads(ps: seq<Packet>): (s: seq<byte>) {
    if |ps| == 0 then [] else Payloads(ps[..|ps| - 1]) + ps[|ps| - 1].payload
  }

  /** The chunks make up the payload, and M is clear on the last fragment only. */
  lemma SentWhole(d: Datagram, identif: uint32, cuts: seq<nat>, sent: seq<Packet>, most: nat)
    requires most <= NET_PAYLOAD && |d.payload| <= PAYLOAD_MAX && Cuts(cuts, |d.payload|, most) && Sent(d, identif, cuts, sent, most)
    ensures Payloads(sent) == d.payload
    ensures forall k {:trigger sent[k]} :: 0 <= k < |sent| ==> (FieldMore(sent[k].frag.offset) <==> k < |sent| - 1)
  {
    PayloadsUpTo(d, identif, cuts, sent, most, |sent|);
    assert sent[..|sent|] == sent;
    forall k | 0 <= k < |sent| ensures FieldMore(sent[k].frag.offset) <==> k < |sent| - 1 {
      FieldRoundTrip(cuts[k], cuts[k + 1] < |d.payload|);
      if k < |sent| - 1 { assert cuts[k + 1] < cuts[k + 2]; }
    }
  }

  lemma {:induction false} PayloadsUpTo(d: Datagram, identif: uint32, cuts: seq<nat>, sent: seq<Packet>, most: nat, n: nat)
    requires most <= NET_PAYLOAD && |d.payload| <= PAYLOAD_MAX && Cuts(cuts, |d.payload|, most) && Sent(d, identif, cuts, sent, most)
    requires n <= |sent|
    ensures cuts[n] <= |d.payload| && Payloads(sent[..n]) == d.payload[..cuts[n]]
  {
    if n > 0 {
      PayloadsUpTo(d, identif, cuts, sent, most, n - 1);
      assert sent[..n][..n - 1] == sent[..n - 1];
      assert sent[n - 1] == FragmentOf(d, identif, cuts[n - 1], cuts[n]);
    }
  }
}
