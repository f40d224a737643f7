/** The peer lists of the connectivity tool. */
module PeerList {
  import opened Arithmetic
  import opened MultiSig
  import opened Codec

  const MSG_PEERS_RESPONSE: Byte := 4
  const LOCALHOST: nat := 0x7f000001
  const ADDRESS_SIZE: nat := 16

  /** The addresses a requester is told, in the order of the map. */
  function Listed(order: seq<nat>, requester: nat): seq<nat> {
    if order == [] then []
    else
      var ip := order[|order| - 1];
      Listed(order[..|order| - 1], requester) + if ip != LOCALHOST && ip != requester then [ip] else []
  }

  function EncodeAll(ips: seq<nat>): Bytes {
    if ips == [] then [] else EncodeAll(ips[..|ips| - 1]) + Encode(ips[|ips| - 1], ADDRESS_SIZE)
  }

  /** All whole addresses after the first byte. */
  function Addresses(msg: Bytes): set<nat> {
    set i | 0 <= i < (|msg| - 1) / 16 :: Decode(msg[1 + 16 * i..17 + 16 * i])
  }

  lemma {:induction false} ListedAre(order: seq<nat>, requester: nat)
    ensures forall ip :: ip in Listed(order, requester) <==> ip in order && ip != LOCALHOST && ip != requester
  {
    if order != [] {
      ListedAre(order[..|order| - 1], requester);
      assert order == order[..|order| - 1] + [order[|order| - 1]];
    }
  }

  lemma {:induction false} EncodeAllAt(ips: seq<nat>, i: nat)
    requires i < |ips|
    ensures |EncodeAll(ips)| == 16 * |ips| && EncodeAll(ips)[16 * i..16 * i + 16] == Encode(ips[i], ADDRESS_SIZE)
  {
    var init := ips[..|ips| - 1];
    EncodeAllLength(init);
    var bs, last := EncodeAll(init), Encode(ips[|ips| - 1], ADDRESS_SIZE);
    if i < |init| {
      EncodeAllAt(init, i);
      assert (bs + last)[16 * i..16 * i + 16] == bs[16 * i..16 * i + 16];
    } else {
      assert (bs + last)[16 * i..16 * i + 16] == last;
    }
  }

  lemma {:induction false} EncodeAllLength(ips: seq<nat>)
    ensures |EncodeAll(ips)| == 16 * |ips|
  {
    if ips != [] {
      EncodeAllLength(ips[..|ips| - 1]);
    }
  }

  lemma ListedSnoc(order: seq<nat>, requester: nat, i: nat)
    requires i < |order|
    ensures Listed(order[..i + 1], requester) ==
      Listed(order[..i], requester) + if order[i] != LOCALHOST && order[i] != requester then [order[i]] else []
  {
    assert order[..i + 1][..i] == order[..i];
  }

  lemma EncodeAllSnoc(ips: seq<nat>, ip: nat)
    ensures EncodeAll(ips + [ip]) == EncodeAll(ips) + Encode(ip, ADDRESS_SIZE)
  {
    assert (ips + [ip])[..|ips|] == ips;
  }

  class Connectivity {
    /** Peers by address; every peer listens on the same port. */
    var peers: set<nat>

    constructor ()
      ensures peers == {}
    {
      peers := {};
    }

    /** `order` is the order in which the map is visited. */
    method OnPeerListRequest(order: seq<nat>, requester: nat) returns (response: Bytes)
      requires forall ip :: ip in order <==> ip in peers
      ensures response == [MSG_PEERS_RESPONSE] + EncodeAll(Listed(order, requester))
    {
      response := [MSG_PEERS_RESPONSE];
      var offset := 1;
      ghost var told: seq<nat> := [];
      for i := 0 to |order|
        invariant told == Listed(order[..i], requester)
        invariant response == [MSG_PEERS_RESPONSE] + EncodeAll(told) && offset == |response|
      {
        ListedSnoc(order, requester, i);
        var ip := order[i];
        if ip != LOCALHOST && ip != requester {
          response := Append(response, offset, told, ip);
          offset, told := offset + ADDRESS_SIZE, told + [ip];
        }
      }
      assert order[..|order|] == order;
    }

    /** Writes one more address at the end. */
    static method Append(response: Bytes, offset: nat, ghost told: seq<nat>, ip: nat) returns (r: Bytes)
      requires response == [MSG_PEERS_RESPONSE] + EncodeAll(told) && offset == |response|
      ensures r == [MSG_PEERS_RESPONSE] + EncodeAll(told + [ip]) && |r| == offset + ADDRESS_SIZE
    {
      EncodeAllSnoc(told, ip);
      assert Written(response, offset, ip, ADDRESS_SIZE) == response + Encode(ip, ADDRESS_SIZE);
      r := SetNumber(response, offset, ip, ADDRESS_SIZE);
    }

    method OnPeerListResponse(msg: Bytes)
      modifies this
      ensures peers == old(peers) + Addresses(msg)
    {
      if |msg| < ADDRESS_SIZE + 1 {
        return;
      }
      var offset, end := 1, |msg| - ADDRESS_SIZE;
      ghost var i := 0;
      while offset <= end
        invariant offset == 1 + 16 * i && offset <= end + 16
        invariant peers == old(peers) + set j | 0 <= j < i :: Decode(msg[1 + 16 * j..17 + 16 * j])
        decreases end + 16 - offset
      {
        var number := GetNumber(msg, offset, ADDRESS_SIZE);
        peers := peers + {number};
        offset, i := offset + ADDRESS_SIZE, i + 1;
      }
    }
  }

  /** 127.0.0.1 in four bytes. */
  lemma LocalhostIs()
    ensures Encode(LOCALHOST, 4) == [127, 0, 0, 1]
  {
    assert LOCALHOST / 256 == 0x7f0000 && Encode(0x7f0000, 3) == [127, 0, 0];
  }

  lemma AddressWidth()
    ensures Pow256(ADDRESS_SIZE) == U128
  {
    assert Pow256(4) == 0x1_0000_0000;
    assert Pow256(8) == U64;
    assert Pow256(12) == U64 * 0x1_0000_0000;
  }

  lemma AddressAt(ips: seq<nat>, i: nat)
    requires i < |ips| && ips[i] < U128
    ensures var msg := [MSG_PEERS_RESPONSE] + EncodeAll(ips);
      17 + 16 * i <= |msg| && Decode(msg[1 + 16 * i..17 + 16 * i]) == ips[i]
  {
    EncodeAllAt(ips, i);
    var msg := [MSG_PEERS_RESPONSE] + EncodeAll(ips);
    assert msg[1 + 16 * i..17 + 16 * i] == EncodeAll(ips)[16 * i..16 * i + 16];
    AddressWidth();
    Lossless(ips[i], ADDRESS_SIZE);
  }

  lemma AddressesAre(msg: Bytes, ips: seq<nat>)
    requires |msg| == 1 + 16 * |ips|
    requires forall i :: 0 <= i < |ips| ==> Decode(msg[1 + 16 * i..17 + 16 * i]) == ips[i]
    ensures Addresses(msg) == set ip | ip in ips
  {
    forall ip | ip in ips
      ensures ip in Addresses(msg)
    {
      var i :| 0 <= i < |ips| && ips[i] == ip;
      assert Decode(msg[1 + 16 * i..17 + 16 * i]) == ip;
    }
    forall ip | ip in Addresses(msg)
      ensures ip in ips
    {
      var i :| 0 <= i < (|msg| - 1) / 16 && ip == Decode(msg[1 + 16 * i..17 + 16 * i]);
      assert ips[i] == ip;
    }
  }

  /** What one node encodes the other decodes: exactly the addresses meant for it, whatever the order. */
  lemma PeersArrive(order: seq<nat>, requester: nat)
    requires forall ip :: ip in order ==> ip < U128
    ensures Addresses([MSG_PEERS_RESPONSE] + EncodeAll(Listed(order, requester)))
              == set ip | ip in order && ip != LOCALHOST && ip != requester
  {
    var ips := Listed(order, requester);
    var msg := [MSG_PEERS_RESPONSE] + EncodeAll(ips);
    ListedAre(order, requester);
    EncodeAllLength(ips);
    forall i | 0 <= i < |ips|
      ensures Decode(msg[1 + 16 * i..17 + 16 * i]) == ips[i]
    {
      assert ips[i] in ips;
      AddressAt(ips, i);
    }
    AddressesAre(msg, ips);
  }
}
