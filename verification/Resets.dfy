/** Reset: whatever the registers hold, one clock with reset leaves each machine in the state from which
    the statements about its runs start. */
module Resets {
  import opened Words
  import Cordic
  import SeqPolar
  import DmaModules
  import DmaSystem
  import EventLink
  import EvgTop
  import EventChan
  import FirLpDdc
  import BeamRom
  import BeamDdc
  import Averager

  lemma CordicReset(r: SeqPolar.Regs, i: SeqPolar.In)
    requires i.reset
    ensures var r' := SeqPolar.Next(r, i); r'.idle && r'.state == 0 && !r'.preValid && !r'.done && !r'.aux
  {
  }

  /** The four machines of the DMA path are where DmaSystem's runs start. */
  lemma DmaReset(t: DmaModules.Trig, a: DmaModules.Adc, w: DmaModules.Writer, i: DmaModules.TrigIn, active: bool,
                 words: nat, j: DmaModules.WriterIn, trig: bool, burst: u32)
    requires i.reset && j.reset
    ensures DmaModules.NextTrig(t, i, active) == DmaSystem.Reset().t
    ensures DmaModules.NextAdc(a, true, trig, burst) == DmaSystem.Reset().adc
    ensures DmaModules.NextWriter(w, words, j) == DmaSystem.Reset().tbt == DmaSystem.Reset().fa
  {
  }

  /** Both ends of the event link: an idle generator that offers nothing, an empty receiver, a comma in
      the transmit register, the second counter at the start of its count, an idle event channel. */
  lemma LinkReset(g: EventLink.Gen, r: EventLink.Rcv, s: EvgTop.Second, c: EventChan.Chan, start: bool, din: EventLink.Bits,
                  code: byte, val: bool, matched: bool, d: u32, w: u32)
    ensures var g' := EventLink.NextGen(g, true, start, din); g'.state.Idle? && !g'.val && g'.dout == 0
    ensures var r' := EventLink.NextRcv(r, true, code); r'.tmp == EventLink.ZERO && r'.stamp == (EventLink.ZERO, 0)
    ensures EvgTop.NextTx(true, code, val) == EvgTop.Tx(0x50BC, 1)
    ensures EvgTop.NextSecond(s, true) == EvgTop.After(0) == EvgTop.Second(0, false, 1761037205)
    ensures EventChan.Next(c, true, matched, d, w) == EventChan.IDLE == EventChan.Chan(0, 0, false, false)
  {
  }

  /** The down-converter: nothing comes out of the filter, the carriers start at their first entry,
      sums and averages at zero, but an averager keeps its latched sum. */
  lemma DdcReset(f: FirLpDdc.Fir, a: BeamDdc.Arm, m: BeamRom.Rom, v: Averager.State, c: Averager.Config, table: BeamRom.Table,
                 trig: bool, sel: bool, din: s24, carrier: s16, other: s24, latch: bool, data: s32)
    requires Averager.IsConfig(c)
    ensures FirLpDdc.Next(f, true, din).dout == 0
    ensures var a' := BeamDdc.NextArm(a, true, trig, sel, din, carrier, other); a'.acc == 0 && a'.sum == 0
    ensures BeamRom.Next(table, m, true, trig) == BeamRom.Rom(0, 0, 0)
    ensures Averager.Next(c, v, true, trig, latch, data) == Averager.START.(lat := v.lat)
  {
  }
}
