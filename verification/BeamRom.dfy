/** beam_cos_rom.vhd and beam_sine_rom.vhd: the carriers of the down-converter, read from two
    tables that start again at every trigger. */
module BeamRom {
  import opened Words

  type Addr = n: nat | n < 62
  type Table = t: seq<s16> | |t| == 62 witness COS

  const COS_0: seq<s16> := [
    32767, -1660, -32599, 4962, 32096, -8213, -31264, 11380, 30111, -14430, -28650, 17333, 26894, -20057, -24862, 22575]
  const COS_1: seq<s16> := [
    22575, -24862, -20057, 26894, 17333, -28650, -14430, 30111, 11380, -31264, -8213, 32096, 4962, -32599, -1660, 32767]
  const COS_2: seq<s16> := [
    -1660, -32599, 4962, 32096, -8213, -31264, 11380, 30111, -14430, -28650, 17333, 26894, -20057, -24862, 22575, 22575]
  const COS_3: seq<s16> := [
    -24862, -20057, 26894, 17333, -28650, -14430, 30111, 11380, -31264, -8213, 32096, 4962, -32599, -1660]
  const COS: seq<s16> := COS_0 + COS_1 + COS_2 + COS_3

  const SINE_0: seq<s16> := [
    0, 32725, -3315, -32389, 6596, 31721, -9809, -30727, 12922, 29418, -15902, -27808, 18719, 25911, -21344, -23749]
  const SINE_1: seq<s16> := [
    23749, 21344, -25911, -18719, 27808, 15902, -29418, -12922, 30727, 9809, -31721, -6596, 32389, 3315, -32725, 0]
  const SINE_2: seq<s16> := [
    32725, -3315, -32389, 6596, 31721, -9809, -30727, 12922, 29418, -15902, -27808, 18719, 25911, -21344, -23749, 23749]
  const SINE_3: seq<s16> := [
    21344, -25911, -18719, 27808, 15902, -29418, -12922, 30727, 9809, -31721, -6596, 32389, 3315, -32725]
  const SINE: seq<s16> := SINE_0 + SINE_1 + SINE_2 + SINE_3

  predicate InCircle(c: int, s: int) {
    Abs(c) <= 0x7FFF && Abs(s) <= 0x7FFF && Abs(c) + Abs(s) <= 46324
  }

  lemma Row0(k: nat)
    requires k < 16
    ensures InCircle(COS_0[k], SINE_0[k])
  {
  }

  lemma Row1(k: nat)
    requires k < 16
    ensures InCircle(COS_1[k], SINE_1[k])
  {
  }

  lemma Row2(k: nat)
    requires k < 16
    ensures InCircle(COS_2[k], SINE_2[k])
  {
  }

  lemma Row3(k: nat)
    requires k < 14
    ensures InCircle(COS_3[k], SINE_3[k])
  {
  }

  lemma Lengths()
    ensures |COS_0| == |COS_1| == |COS_2| == 16 && |COS_3| == 14
    ensures |SINE_0| == |SINE_1| == |SINE_2| == 16 && |SINE_3| == 14
  {
  }

  /** The squared length of a carrier value, within 0.64 units of the full scale. */
  predicate OnCircle(c: int, s: int) {
    32767 * 32767 - 41464 <= c * c + s * s <= 32767 * 32767 + 41464
  }

  /** (c', s') is (c, s) turned by the angle of (-1660, 32725), within 1.17 units in each coordinate. */
  predicate Turned(c: int, s: int, c': int, s': int) {
    && -38295 <= 32767 * c' - (-1660 * c - 32725 * s) <= 38295
    && -38295 <= 32767 * s' - (-1660 * s + 32725 * c) <= 38295
  }

  lemma InRow0(k: nat)
    requires k < 15
    ensures OnCircle(COS_0[k], SINE_0[k]) && OnCircle(COS_0[k + 1], SINE_0[k + 1])
    ensures Turned(COS_0[k], SINE_0[k], COS_0[k + 1], SINE_0[k + 1])
  {
  }

  lemma InRow1(k: nat)
    requires k < 15
    ensures OnCircle(COS_1[k], SINE_1[k]) && OnCircle(COS_1[k + 1], SINE_1[k + 1])
    ensures Turned(COS_1[k], SINE_1[k], COS_1[k + 1], SINE_1[k + 1])
  {
  }

  lemma InRow2(k: nat)
    requires k < 15
    ensures OnCircle(COS_2[k], SINE_2[k]) && OnCircle(COS_2[k + 1], SINE_2[k + 1])
    ensures Turned(COS_2[k], SINE_2[k], COS_2[k + 1], SINE_2[k + 1])
  {
  }

  lemma InRow3(k: nat)
    requires k < 13
    ensures OnCircle(COS_3[k], SINE_3[k]) && OnCircle(COS_3[k + 1], SINE_3[k + 1])
    ensures Turned(COS_3[k], SINE_3[k], COS_3[k + 1], SINE_3[k + 1])
  {
  }

  lemma RowEnds()
    ensures Turned(COS_0[15], SINE_0[15], COS_1[0], SINE_1[0])
    ensures Turned(COS_1[15], SINE_1[15], COS_2[0], SINE_2[0])
    ensures Turned(COS_2[15], SINE_2[15], COS_3[0], SINE_3[0])
    ensures Turned(COS_3[13], SINE_3[13], COS_0[0], SINE_0[0])
  {
  }

  /** The two tables hold points on a circle: no value exceeds the full scale, and the squared length
      is the full scale's within 41464. */
  lemma TablesOnCircle(k: Addr)
    ensures |COS| == 62 && |SINE| == 62 && InCircle(COS[k], SINE[k]) && OnCircle(COS[k], SINE[k])
  {
    Lengths();
    hide InCircle, OnCircle, Turned, COS_0, COS_1, COS_2, COS_3, SINE_0, SINE_1, SINE_2, SINE_3;
    if k < 16 {
      Row0(k);
      InRow0(if k < 15 then k else 14);
    } else if k < 32 {
      Row1(k - 16);
      InRow1(if k < 31 then k - 16 else 14);
    } else if k < 48 {
      Row2(k - 32);
      InRow2(if k < 47 then k - 32 else 14);
    } else {
      Row3(k - 48);
      InRow3(if k < 61 then k - 48 else 12);
    }
  }

  /** Where the rows are in the tables. */
  lemma Entries(k: Addr)
    ensures |COS| == 62 && |SINE| == 62 && |COS_0| == |COS_1| == |COS_2| == 16 && |COS_3| == 14
    ensures |SINE_0| == |SINE_1| == |SINE_2| == 16 && |SINE_3| == 14
    ensures k < 16 ==> COS[k] == COS_0[k] && SINE[k] == SINE_0[k]
    ensures 16 <= k < 32 ==> COS[k] == COS_1[k - 16] && SINE[k] == SINE_1[k - 16]
    ensures 32 <= k < 48 ==> COS[k] == COS_2[k - 32] && SINE[k] == SINE_2[k - 32]
    ensures 48 <= k ==> COS[k] == COS_3[k - 48] && SINE[k] == SINE_3[k - 48]
  {
    Lengths();
    hide COS_0, COS_1, COS_2, COS_3, SINE_0, SINE_1, SINE_2, SINE_3;
  }

  /** The carrier turns evenly: it starts at full scale, and each entry is the one before turned by
      one and the same angle, the first one following the last. */
  lemma TablesTurn(k: Addr)
    ensures |COS| == 62 && |SINE| == 62 && COS[0] == 32767 && SINE[0] == 0
    ensures Turned(COS[k], SINE[k], COS[(k + 1) % 62], SINE[(k + 1) % 62])
  {
    hide *;
    Entries(0);
    FirstEntries();
    RowEnds();
    Entries(k);
    Following(k);
    if k < 61 {
      Entries(k + 1);
    }
    if k < 15 {
      InRow0(k);
    } else if 16 <= k < 31 {
      InRow1(k - 16);
    } else if 32 <= k < 47 {
      InRow2(k - 32);
    } else if 48 <= k < 61 {
      InRow3(k - 48);
    }
  }

  lemma Following(k: Addr)
    ensures (k + 1) % 62 == if k == 61 then 0 else k + 1
  {
  }

  lemma FirstEntries()
    ensures |COS_0| == 16 && |SINE_0| == 16 && COS_0[0] == 32767 && SINE_0[0] == 0
  {
  }

  // ---- one table's reader ----

  datatype Rom = Rom(addr: Addr, look: s16, dout: s16)

  function Next(table: Table, r: Rom, rst: bool, trig: bool): Rom {
    Rom(if rst || trig || r.addr == 61 then 0 else r.addr + 1, if rst then 0 else table[r.addr], if rst then 0 else r.look)
  }

  class Reader {
    const table: Table
    var addr: Addr
    var look: s16
    var dout: s16

    ghost function Snapshot(): Rom
      reads this
    {
      Rom(addr, look, dout)
    }

    constructor (table: Table)
      ensures this.table == table && addr == 0
    {
      this.table := table;
      addr, look, dout := 0, 0, 0;
    }

    method Tick(rst: bool, trig: bool)
      modifies this
      ensures Snapshot() == Next(table, old(Snapshot()), rst, trig)
    {
      dout := if rst then 0 else look;
      look := if rst then 0 else table[addr];
      if rst || trig {
        addr := 0;
      } else if addr == 61 {
        addr := 0;
      } else {
        addr := addr + 1;
      }
    }
  }

  // ---- whole runs ----

  function Run(table: Table, r: Rom, trigs: seq<bool>): Rom {
    if trigs == [] then r else Next(table, Run(table, r, trigs[..|trigs| - 1]), false, trigs[|trigs| - 1])
  }

  /** The carrier is locked to the turn: n + 2 clocks after a trigger it is entry n of the table,
      round and round, whatever came before. */
  lemma {:induction false} LockedToTurn(table: Table, r: Rom, trigs: seq<bool>, n: nat)
    requires |trigs| > n && trigs[|trigs| - 1 - n] && forall k :: |trigs| - n <= k < |trigs| ==> !trigs[k]
    ensures var m := Run(table, r, trigs);
            && m.addr == n % 62
            && (n >= 1 ==> m.look == table[(n - 1) % 62])
            && (n >= 2 ==> m.dout == table[(n - 2) % 62])
    decreases n
  {
    if n > 0 {
      LockedToTurn(table, r, trigs[..|trigs| - 1], n - 1);
    }
  }

  /** What the two readers together can hold. */
  ghost predicate Pair(c: Rom, s: Rom) {
    c.addr == s.addr && InCircle(c.look, s.look) && InCircle(c.dout, s.dout)
  }

  /** Under the same triggers the two carriers always come from the same address. */
  lemma {:induction false} PairStays(c: Rom, s: Rom, trigs: seq<bool>)
    requires Pair(c, s)
    ensures |COS| == 62 && |SINE| == 62 && Pair(Run(COS, c, trigs), Run(SINE, s, trigs))
  {
    TablesOnCircle(0);
    hide COS, SINE, InCircle;
    if trigs != [] {
      var front := trigs[..|trigs| - 1];
      PairStays(c, s, front);
      TablesOnCircle(Run(COS, c, front).addr);
    }
  }

  lemma OutputAt(table: Table, r: Rom, trigs: seq<bool>, n: nat)
    requires |trigs| > n >= 2 && trigs[|trigs| - 1 - n] && forall k :: |trigs| - n <= k < |trigs| ==> !trigs[k]
    ensures Run(table, r, trigs).dout == table[(n - 2) % 62]
  {
    LockedToTurn(table, r, trigs, n);
  }

  lemma NextAddress(n: nat)
    ensures (n % 62 + 1) % 62 == (n + 1) % 62
  {
  }

  /** So do the two carriers that are put out: from the third clock after a trigger until two clocks
      after the next, each pair of output values is the pair before turned by that angle. */
  lemma CarriersTurn(c: Rom, s: Rom, trigs: seq<bool>, n: nat)
    requires |trigs| > n >= 3 && trigs[|trigs| - 1 - n] && forall k :: |trigs| - n <= k < |trigs| ==> !trigs[k]
    ensures |COS| == 62 && |SINE| == 62
    ensures var was := trigs[..|trigs| - 1];
            Turned(Run(COS, c, was).dout, Run(SINE, s, was).dout, Run(COS, c, trigs).dout, Run(SINE, s, trigs).dout)
  {
    hide *;
    var was, k := trigs[..|trigs| - 1], (n - 3) % 62;
    TablesTurn(k);
    NextAddress(n - 3);
    OutputAt(COS, c, trigs, n);
    OutputAt(SINE, s, trigs, n);
    OutputAt(COS, c, was, n - 1);
    OutputAt(SINE, s, was, n - 1);
  }
}
