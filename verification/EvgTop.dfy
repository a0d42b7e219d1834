/** evg_top.vhd around the serialiser: the transmit register of the event link, and the 1 Hz
    signal with the second counter whose value is serialised. */
module EvgTop {
  import opened Words
  import Arith
  import EventLink

  const IDLE_WORD: u16 := 0x50BC
  const HALF_SECOND: int := 50000000   // clocks between two edges of the 1 Hz signal
  const EPOCH: u32 := 1761037205       // second counter after reset

  // ---- transmit register ----

  datatype Tx = Tx(data: u16, charIsK: byte)

  function NextTx(rst: bool, code: byte, val: bool): Tx {
    if rst || !val then Tx(IDLE_WORD, 0x01) else Tx(code, 0x00)
  }

  // ---- 1 Hz signal and second counter ----

  datatype Second = Second(cnt: u32, sig: bool, epoch: u32)

  function NextSecond(s: Second, rst: bool): Second {
    if rst then Second(0, false, EPOCH)
    else if s.cnt == HALF_SECOND - 1 then
      Second(0, !s.sig, if !s.sig then (s.epoch + 1) % 0x1_0000_0000 else s.epoch)
    else s.(cnt := (s.cnt + 1) % 0x1_0000_0000)
  }

  class Evg {
    var txData: u16
    var txCharIsK: byte
    var cnt: u32
    var sig: bool
    var epoch: u32

    ghost function Transmit(): Tx
      reads this
    {
      Tx(txData, txCharIsK)
    }

    ghost function Clock(): Second
      reads this
    {
      Second(cnt, sig, epoch)
    }

    constructor ()
      ensures cnt == 0 && !sig
    {
      txData, txCharIsK, cnt, sig, epoch := 0, 0, 0, false, 0;
    }

    /** One edge of the event link's clock. */
    method TickEvg(rst: bool, code: byte, val: bool)
      modifies this
      ensures Transmit() == NextTx(rst, code, val) && Clock() == old(Clock())
    {
      if rst {
        txData, txCharIsK := IDLE_WORD, 0x01;
      } else if val {
        txData, txCharIsK := code, 0x00;
      } else {
        txData, txCharIsK := IDLE_WORD, 0x01;
      }
    }

    /** One edge of the system clock. */
    method TickSys(rst: bool)
      modifies this
      ensures Clock() == NextSecond(old(Clock()), rst) && Transmit() == old(Transmit())
    {
      if rst {
        cnt, sig, epoch := 0, false, EPOCH;
      } else if cnt == HALF_SECOND - 1 {
        if !sig {
          epoch := (epoch + 1) % 0x1_0000_0000;
        }
        cnt := 0;
        sig := !sig;
      } else {
        cnt := (cnt + 1) % 0x1_0000_0000;
      }
    }
  }

  /** The receiver takes the low byte of the link word (evr_top.vhd): it is the generator's code
      when there is one, and otherwise a comma that is none of the receiver's codes. */
  lemma ReceiverSeesCode(g: EventLink.Gen)
    ensures NextTx(false, g.dout, g.val).data % 0x100 == EventLink.Offered(g)
    ensures !g.val ==> EventLink.Offered(g) != EventLink.CODE_LATCH && !EventLink.IsBit(EventLink.Offered(g))
  {
  }

  // ---- the second counter over a whole run ----

  function After(n: nat): Second {
    if n == 0 then Second(0, false, EPOCH) else NextSecond(After(n - 1), false)
  }

  /** The registers after `c` clocks of the `h`-th half second. */
  function Counted(c: u32, h: nat): Second {
    Second(c, h % 2 == 1, (EPOCH + (h + 1) / 2) % 0x1_0000_0000)
  }

  lemma CountedStep(c: u32, h: nat)
    ensures c < HALF_SECOND - 1 ==> NextSecond(Counted(c, h), false) == Counted(c + 1, h)
    ensures c == HALF_SECOND - 1 ==> NextSecond(Counted(c, h), false) == Counted(0, h + 1)
  {
  }

  /** Out of reset the 1 Hz signal changes every 50,000,000 clocks, first up, and the second
      counter goes up by one, modulo its width, with each rise and at no other time. */
  lemma {:induction false} SecondsCounted(n: nat)
    ensures After(n) == Counted(n % HALF_SECOND, n / HALF_SECOND)
    ensures After(n).cnt == n % 50000000 && (After(n).sig <==> (n / 50000000) % 2 == 1)
    ensures After(n).epoch == (1761037205 + (n / 50000000 + 1) / 2) % 0x1_0000_0000
  {
    if n > 0 {
      SecondsCounted(n - 1);
      Arith.DivStep(n, HALF_SECOND);
      hide Counted, NextSecond;
      CountedStep((n - 1) % HALF_SECOND, (n - 1) / HALF_SECOND);
    }
  }
}
