/** What both directions of a TFTP transfer share: how a file is cut into blocks, and the
    datagrams that reach the peer. */
module TftpNetwork {
  import opened Words
  import opened Tftp

  /** RFC 1350, section 2: the file is cut into 512-byte blocks, and the first shorter block,
      empty when the length is a multiple of 512, ends it. */
  function Blocks(file: seq<byte>): nat {
    |file| / PAYLOAD + 1
  }

  /** Block `n` of the file, counting from 1. */
  function BlockAt(file: seq<byte>, n: nat): seq<byte> {
    if n >= 1 then Chunk(file, (n - 1) * PAYLOAD) else []
  }

  /** The bytes of blocks 1..n. */
  function FirstBlocks(file: seq<byte>, n: nat): seq<byte> {
    file[..Min(n * PAYLOAD, |file|)]
  }

  lemma BlockFacts(file: seq<byte>, n: nat)
    requires 1 <= n <= Blocks(file)
    ensures |BlockAt(file, n)| <= PAYLOAD
    ensures |BlockAt(file, n)| == PAYLOAD <==> n < Blocks(file)
    ensures FirstBlocks(file, n) == FirstBlocks(file, n - 1) + BlockAt(file, n)
    ensures (n - 1) * PAYLOAD <= |file|
    ensures (n - 1) * PAYLOAD + |BlockAt(file, n)| == Min(n * PAYLOAD, |file|)
    ensures BlockAt(file, n) == file[(n - 1) * PAYLOAD..(n - 1) * PAYLOAD + |BlockAt(file, n)|]
    ensures n == Blocks(file) ==> FirstBlocks(file, n) == file
  {
  }

  function Num(n: nat): u16 {
    n % 0x1_0000
  }

  /** This request makes the server open the file. */
  predicate Opens(s: Session, d: Datagram, env: Env) {
    !s.open && d.Request? && env.openOk && ParseRequest(d.body).Names? && ParseRequest(d.body).mode == OCTET
  }

  /** What of the server's output travels to the peer. */
  function Outgoing(addr: nat, port: u16, out: seq<Sent>): set<Datagram> {
    set o | o in out && o.addr == addr && o.port == port :: o.datagram
  }

  lemma OutgoingOne(addr: nat, port: u16, o: Sent)
    ensures Outgoing(addr, port, [o]) == if o.addr == addr && o.port == port then {o.datagram} else {}
    ensures Outgoing(addr, port, []) == {}
  {
    assert o in [o];
  }

  /** Every allocation and file operation succeeds. */
  const GOOD: Env := Env(true, true, true, true, [])
}
