/** The clocked machines of the DMA trigger path: sync_cdc.vhd, trig_logic.vhd, adc2dma.vhd and
    the record writers tbt2dma.vhd and fa2dma.vhd. For each a function from registers and inputs
    to registers, and a class whose Tick is the clocked process. */
module DmaModules {
  import opened Words

  const WORD32: int := 0x1_0000_0000

  /** unsigned - 1 on 32 bits. */
  function Pred32(n: u32): u32 {
    (n - 1) % WORD32
  }

  function Succ32(n: u32): u32 {
    (n + 1) % WORD32
  }

  // ---- sync_cdc: three-stage synchroniser with rising-edge pulse ----

  datatype Sync = Sync(s0: bool, s1: bool, s2: bool) {
    predicate Rise() {
      s1 && !s2
    }
  }

  function NextSync(s: Sync, reset: bool, din: bool): Sync {
    if reset then Sync(false, false, false) else Sync(din, s.s0, s.s1)
  }

  class SyncCdc {
    var sr0: bool
    var sr1: bool
    var sr2: bool

    ghost function Snapshot(): Sync
      reads this
    {
      Sync(sr0, sr1, sr2)
    }

    method Tick(reset: bool, din: bool)
      modifies this
      ensures Snapshot() == NextSync(old(Snapshot()), reset, din)
    {
      if reset {
        sr0, sr1, sr2 := false, false, false;
      } else {
        sr0, sr1, sr2 := din, sr0, sr1;
      }
    }

    method Rise() returns (r: bool)
      ensures r == Snapshot().Rise()
    {
      r := sr1 && !sr2;
    }
  }

  // ---- trig_logic ----

  datatype Trig = Trig(trig: bool, lat: bool, running: bool, done: bool, cnt: u32, ts: nat, evr: Sync, soft: Sync)

  datatype TrigIn = TrigIn(reset: bool, softSource: bool, evr: bool, soft: bool, txDone: bool, ts: nat)

  /** The pulse of the selected trigger source. */
  function Selected(t: Trig, softSource: bool): Sync {
    if softSource then t.soft else t.evr
  }

  /** Four processes and two synchronisers; within the latch process the last assignment wins. */
  function NextTrig(t: Trig, i: TrigIn, active: bool): Trig {
    var evr, soft := NextSync(t.evr, i.reset, i.evr), NextSync(t.soft, i.reset, i.soft);
    if i.reset then Trig(false, false, false, false, 0, 0, evr, soft)
    else Trig(
      Selected(t, i.softSource).Rise() && !t.lat,
      if t.lat && i.txDone then false else t.trig || t.lat,
      if t.running && !active then false else t.running || (t.lat && active),
      t.running && !active,
      if t.done then Succ32(t.cnt) else t.cnt,
      if t.trig then i.ts else t.ts,
      evr, soft)
  }

  class TrigLogic {
    var trig: bool
    var lat: bool
    var running: bool
    var done: bool
    var cnt: u32
    var ts: nat
    const evr: SyncCdc
    const soft: SyncCdc

    ghost predicate Valid()
      reads this
    {
      evr != soft
    }

    ghost function Snapshot(): Trig
      reads this, evr, soft
    {
      Trig(trig, lat, running, done, cnt, ts, evr.Snapshot(), soft.Snapshot())
    }

    constructor ()
      ensures Valid() && fresh(evr) && fresh(soft)
    {
      evr := new SyncCdc;
      soft := new SyncCdc;
      new;
    }

    /** The registers of the module itself. */
    ghost function Own(): Trig
      reads this
    {
      Trig(trig, lat, running, done, cnt, ts, Sync(false, false, false), Sync(false, false, false))
    }

    method Tick(i: TrigIn, active: bool)
      requires Valid()
      modifies this, evr, soft
      ensures Snapshot() == NextTrig(old(Snapshot()), i, active)
    {
      var rise := false;
      if i.softSource {
        rise := soft.Rise();
      } else {
        rise := evr.Rise();
      }
      Processes(i, active, rise);
      evr.Tick(i.reset, i.evr);
      soft.Tick(i.reset, i.soft);
    }

    /** The four clocked processes; later assignments to a register overwrite earlier ones. */
    method Processes(i: TrigIn, active: bool, rise: bool)
      modifies this
      ensures var t := old(Own());
              Own() == if i.reset then t.(trig := false, lat := false, running := false, done := false, cnt := 0, ts := 0)
                       else t.(trig := rise && !t.lat,
                               lat := if t.lat && i.txDone then false else t.trig || t.lat,
                               running := if t.running && !active then false else t.running || (t.lat && active),
                               done := t.running && !active,
                               cnt := if t.done then Succ32(t.cnt) else t.cnt,
                               ts := if t.trig then i.ts else t.ts)
    {
      if i.reset {
        trig, lat, running, done, cnt, ts := false, false, false, false, 0, 0;
        return;
      }
      if done {
        cnt := Succ32(cnt);
      }
      if trig {
        ts := i.ts;
      }
      var trig', lat', running', done' := rise && !lat, lat, running, false;
      if trig {
        lat' := true;
      }
      if lat && active {
        running' := true;
      }
      if running && !active {
        done' := true;
        running' := false;
      }
      if lat && i.txDone {
        lat' := false;
      }
      trig, lat, running, done := trig', lat', running', done';
    }
  }

  // ---- adc2dma ----

  /** `busy` is the state ACTIVE; valid and last are the AXI stream strobes. */
  datatype Adc = Adc(busy: bool, len: u32, valid: bool, last: bool)

  function NextAdc(a: Adc, reset: bool, trig: bool, burst: u32): Adc {
    if reset then Adc(false, 0, false, false)
    else if !a.busy then
      if trig then Adc(true, burst, true, false) else Adc(false, a.len, false, false)
    else Adc(a.len != 1, Pred32(a.len), a.valid, a.last || a.len == 1)
  }

  class Adc2Dma {
    var busy: bool
    var len: u32
    var valid: bool
    var last: bool

    ghost function Snapshot(): Adc
      reads this
    {
      Adc(busy, len, valid, last)
    }

    method Tick(reset: bool, trig: bool, burst: u32)
      modifies this
      ensures Snapshot() == NextAdc(old(Snapshot()), reset, trig, burst)
    {
      if reset {
        last, valid, len, busy := false, false, 0, false;
      } else if !busy {
        last := false;
        valid := false;
        if trig {
          busy := true;
          len := burst;
          valid := true;
        }
      } else {
        if len == 1 {
          last := true;
          busy := false;
        }
        len := Pred32(len);
      }
    }
  }

  // ---- tbt2dma and fa2dma: one header and words - 1 data words per record ----

  datatype State = Idle | Active | Write(k: nat)

  datatype Word = Header(count: nat) | Payload(k: nat, value: nat)

  datatype Writer = Writer(state: State, len: u32, count: nat, valid: bool, last: bool, data: Word)

  /** The inputs of a record writer: the DMA trigger, the strobe of a new record and the word
      that each write state would sample now. */
  datatype WriterIn = WriterIn(reset: bool, trig: bool, burst: u32, strobe: bool, sample: nat -> nat)

  const TBT_WORDS: nat := 8
  const FA_WORDS: nat := 5

  function NextWriter(w: Writer, words: nat, i: WriterIn): Writer {
    if i.reset then Writer(Idle, 0, 0, false, false, Payload(0, 0))
    else
      match w.state
      case Idle =>
        w.(state := if i.trig then Active else Idle, len := if i.trig then i.burst else w.len,
           count := 0, valid := false, last := false)
      case Active =>
        w.(state := if i.strobe then Write(0) else Active, len := if i.strobe then Pred32(w.len) else w.len,
           valid := false, last := false)
      case Write(k) =>
        var w1 := w.(valid := w.valid || k == 0, data := if k == 0 then Header(w.count) else Payload(k, i.sample(k)));
        if k + 1 < words then w1.(state := Write(k + 1))
        else w1.(count := w.count + 1, last := w.last || w.len == 0, state := if w.len == 0 then Idle else Active)
  }

  class RecordWriter {
    const words: nat
    var state: State
    var len: u32
    var count: nat
    var valid: bool
    var last: bool
    var data: Word

    constructor (words: nat)
      ensures this.words == words
    {
      this.words := words;
      data := Payload(0, 0);
    }

    ghost function Snapshot(): Writer
      reads this
    {
      Writer(state, len, count, valid, last, data)
    }

    method Tick(i: WriterIn)
      modifies this
      ensures Snapshot() == NextWriter(old(Snapshot()), words, i)
    {
      if i.reset {
        state, len, count, valid, last, data := Idle, 0, 0, false, false, Payload(0, 0);
        return;
      }
      match state {
        case Idle =>
          last := false;
          valid := false;
          count := 0;
          if i.trig {
            state := Active;
            len := i.burst;
          }
        case Active =>
          last := false;
          valid := false;
          if i.strobe {
            state := Write(0);
            len := Pred32(len);
          }
        case Write(k) =>
          if k == 0 {
            valid := true;
            data := Header(count);
          } else {
            data := Payload(k, i.sample(k));
          }
          if k + 1 < words {
            state := Write(k + 1);
          } else {
            count := count + 1;
            if len == 0 {
              last := true;
              state := Idle;
            } else {
              state := Active;
            }
          }
      }
    }
  }
}
