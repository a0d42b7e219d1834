/** The shape of the bursts that the three DMA writers put on their streams. */
module DmaBursts {
  import opened Words
  import opened Arith
  import opened DmaModules

  datatype Beat = Beat(last: bool, data: Word)

  // ---- TbT and FA ----

  function RunWriter(w: Writer, words: nat, ins: seq<WriterIn>, n: nat): Writer
    requires n <= |ins|
  {
    if n == 0 then w else NextWriter(RunWriter(w, words, ins, n - 1), words, ins[n - 1])
  }

  /** The beats of clocks 1..n: what the stream carries whenever valid is high. */
  function Beats(w: Writer, words: nat, ins: seq<WriterIn>, n: nat): seq<Beat>
    requires n <= |ins|
  {
    if n == 0 then []
    else
      var w' := RunWriter(w, words, ins, n);
      Beats(w, words, ins, n - 1) + if w'.valid then [Beat(w'.last, w'.data)] else []
  }

  /** Word k of record c, for each record and word. */
  type Records = (nat, nat) -> nat

  /** Beat `i` of a burst of `words`-word records. */
  ghost predicate BeatAt(b: Beat, words: nat, rec: Records, i: nat)
    requires words >= 1
  {
    b.data == if i % words == 0 then Header(i / words) else Payload(i % words, rec(i / words, i % words))
  }

  ghost predicate Shape(beats: seq<Beat>, words: nat, rec: Records)
    requires words >= 1
  {
    forall i :: 0 <= i < |beats| ==> BeatAt(beats[i], words, rec, i)
  }

  /** `rec` is what the writer samples: on the clock on which it writes word k of record c, the
      input carries rec(c, k). */
  predicate Samples(w: Writer, i: WriterIn, rec: Records) {
    w.state.Write? ==> i.sample(w.state.k) == rec(w.count, w.state.k)
  }

  ghost predicate NoLast(beats: seq<Beat>) {
    forall i :: 0 <= i < |beats| ==> !beats[i].last
  }

  /** Where a burst of `n` records is after the beats seen so far. */
  ghost predicate Filling(w: Writer, words: nat, n: u32, rec: Records, beats: seq<Beat>)
    requires words >= 1
  {
    && Shape(beats, words, rec)
    && (w.state.Active? ==> NoLast(beats) && !w.last && w.count < n && w.len == n - w.count && |beats| == words * w.count)
    && (w.state.Write? ==> NoLast(beats) && !w.last && w.state.k < words && w.count < n && w.len == n - w.count - 1
                           && |beats| == words * w.count + w.state.k && (w.valid <==> w.state.k > 0))
    && (w.state.Idle? ==> |beats| == words * n && forall i :: 0 <= i < |beats| ==> (beats[i].last <==> i == |beats| - 1))
  }

  lemma Position(words: nat, c: nat, k: nat)
    requires k < words
    ensures (words * c + k) / words == c && (words * c + k) % words == k
  {
    DivUnique(words * c + k, words, c, k);
    assert words * ((words * c + k) / words) + (words * c + k) % words == words * c + k;
  }

  lemma FillStep(w: Writer, words: nat, n: u32, rec: Records, beats: seq<Beat>, i: WriterIn)
    requires words >= 2 && !i.reset && !w.state.Idle? && Filling(w, words, n, rec, beats) && Samples(w, i, rec)
    ensures var w' := NextWriter(w, words, i);
            Filling(w', words, n, rec, beats + if w'.valid then [Beat(w'.last, w'.data)] else [])
  {
    match w.state {
      case Active =>
        assert beats + [] == beats;
      case Write(k) =>
        Position(words, w.count, k);
        var w' := NextWriter(w, words, i);
        assert w'.valid;
        var beats' := beats + [Beat(w'.last, w'.data)];
        assert BeatAt(beats'[|beats|], words, rec, |beats|);
        assert words * (w.count + 1) == words * w.count + words;
        assert Shape(beats', words, rec);
    }
  }

  lemma {:induction false} FillRun(w: Writer, words: nat, n: u32, rec: Records, ins: seq<WriterIn>, m: nat)
    requires words >= 2 && n >= 1 && 1 <= m <= |ins|
    requires w.state.Idle? && ins[0].trig && ins[0].burst == n
    requires forall j :: 0 <= j < m ==> !ins[j].reset
    requires forall j :: 1 <= j < m ==> !RunWriter(w, words, ins, j).state.Idle? && Samples(RunWriter(w, words, ins, j), ins[j], rec)
    ensures Filling(RunWriter(w, words, ins, m), words, n, rec, Beats(w, words, ins, m))
  {
    if m == 1 {
      assert RunWriter(w, words, ins, 0) == w;
      assert RunWriter(w, words, ins, 1) == NextWriter(w, words, ins[0]);
      assert Beats(w, words, ins, 0) == [];
      assert Beats(w, words, ins, 1) == [];
    } else {
      FillRun(w, words, n, rec, ins, m - 1);
      hide NextWriter, Filling, Samples;
      FillStep(RunWriter(w, words, ins, m - 1), words, n, rec, Beats(w, words, ins, m - 1), ins[m - 1]);
    }
  }

  /** However the record strobes and further triggers are spaced, a burst of n >= 1 records that
      has come back to idle is exactly words * n beats: header counts 0..n-1 every `words` beats,
      each followed by the words of that record in order, and a single last on the final beat. */
  lemma RecordBurst(w: Writer, words: nat, n: u32, rec: Records, ins: seq<WriterIn>)
    requires words >= 2 && n >= 1 && |ins| >= 1
    requires w.state.Idle? && ins[0].trig && ins[0].burst == n
    requires forall i <- ins :: !i.reset
    requires forall j :: 1 <= j < |ins| ==> !RunWriter(w, words, ins, j).state.Idle? && Samples(RunWriter(w, words, ins, j), ins[j], rec)
    requires RunWriter(w, words, ins, |ins|).state.Idle?
    ensures var beats := Beats(w, words, ins, |ins|);
            && |beats| == words * n
            && (forall i :: 0 <= i < |beats| ==> BeatAt(beats[i], words, rec, i))
            && (forall i :: 0 <= i < |beats| ==> (beats[i].last <==> i == |beats| - 1))
  {
    FillRun(w, words, n, rec, ins, |ins|);
  }

  lemma TbtAndFaBursts(w: Writer, n: u32, rec: Records, ins: seq<WriterIn>, words: nat)
    requires words == TBT_WORDS || words == FA_WORDS
    requires n >= 1 && |ins| >= 1 && w.state.Idle? && ins[0].trig && ins[0].burst == n
    requires forall i <- ins :: !i.reset
    requires forall j :: 1 <= j < |ins| ==> !RunWriter(w, words, ins, j).state.Idle? && Samples(RunWriter(w, words, ins, j), ins[j], rec)
    requires RunWriter(w, words, ins, |ins|).state.Idle?
    ensures |Beats(w, words, ins, |ins|)| == if words == TBT_WORDS then 8 * n else 5 * n
  {
    RecordBurst(w, words, n, rec, ins);
  }

  /** With the strobe held high a burst of n records takes 1 + n * (words + 1) clocks. */
  ghost predicate Strobed(ins: seq<WriterIn>) {
    forall i <- ins :: !i.reset && i.strobe
  }

  lemma {:induction false} WriteOut(w: Writer, words: nat, ins: seq<WriterIn>, m: nat, k: nat)
    requires Strobed(ins) && words >= 1 && k < words && m + 1 + k <= |ins|
    requires RunWriter(w, words, ins, m).state.Active?
    ensures var a, b := RunWriter(w, words, ins, m), RunWriter(w, words, ins, m + 1 + k);
            b.state == Write(k) && b.len == Pred32(a.len) && b.count == a.count
  {
    if k > 0 {
      WriteOut(w, words, ins, m, k - 1);
      assert m + 1 + (k - 1) == m + k;
    }
  }

  /** One record under a held strobe, from waiting for it to its last word. */
  lemma RecordTime(w: Writer, words: nat, ins: seq<WriterIn>, m: nat)
    requires Strobed(ins) && words >= 1 && m + words + 1 <= |ins| && RunWriter(w, words, ins, m).state.Active?
    ensures var a, b := RunWriter(w, words, ins, m), RunWriter(w, words, ins, m + words + 1);
            && (a.len > 1 ==> b.state.Active? && b.len == a.len - 1 && b.count == a.count + 1)
            && (a.len == 1 ==> b.state.Idle? && b.last)
  {
    WriteOut(w, words, ins, m, words - 1);
    assert RunWriter(w, words, ins, m + words + 1) == NextWriter(RunWriter(w, words, ins, m + words), words, ins[m + words]);
    hide RunWriter;
  }

  lemma {:induction false} BurstTime(w: Writer, words: nat, n: u32, ins: seq<WriterIn>, c: nat)
    requires Strobed(ins) && words >= 1 && n >= 1 && c <= n && 1 + c * (words + 1) <= |ins|
    requires w.state.Idle? && ins[0].trig && ins[0].burst == n
    ensures var b := RunWriter(w, words, ins, 1 + c * (words + 1));
            && (c < n ==> b.state.Active? && b.len == n - c && b.count == c)
            && (c == n ==> b.state.Idle? && b.last)
  {
    if c == 0 {
      assert RunWriter(w, words, ins, 0) == w;
      assert RunWriter(w, words, ins, 1) == NextWriter(w, words, ins[0]);
    } else {
      var m := 1 + (c - 1) * (words + 1);
      assert 1 + c * (words + 1) == m + words + 1;
      BurstTime(w, words, n, ins, c - 1);
      RecordTime(w, words, ins, m);
    }
  }

  // ---- ADC ----

  datatype AdcIn = AdcIn(trig: bool, burst: u32)

  function RunAdc(a: Adc, ins: seq<AdcIn>, n: nat): Adc
    requires n <= |ins|
  {
    if n == 0 then a else NextAdc(RunAdc(a, ins, n - 1), false, ins[n - 1].trig, ins[n - 1].burst)
  }

  /** The last flags of the valid clocks among 1..n. */
  function AdcBeats(a: Adc, ins: seq<AdcIn>, n: nat): seq<bool>
    requires n <= |ins|
  {
    if n == 0 then []
    else
      var a' := RunAdc(a, ins, n);
      AdcBeats(a, ins, n - 1) + if a'.valid then [a'.last] else []
  }

  lemma {:induction false} AdcRun(a: Adc, n: u32, ins: seq<AdcIn>, m: nat)
    requires n >= 1 && !a.busy && 1 <= m <= n + 1 && m <= |ins| && ins[0].trig && ins[0].burst == n
    ensures RunAdc(a, ins, m) == Adc(m <= n, n + 1 - m, true, m == n + 1)
    ensures |AdcBeats(a, ins, m)| == m
    ensures forall i :: 0 <= i < m ==> (AdcBeats(a, ins, m)[i] <==> i == n)
  {
    if m == 1 {
      assert RunAdc(a, ins, 0) == a && AdcBeats(a, ins, 0) == [];
    } else {
      AdcRun(a, n, ins, m - 1);
    }
  }

  /** An ADC burst of length n >= 1 is n + 1 consecutive beats, one more than the comment in the
      source says, with last on the final one; they fit the (n + 16) * 8 bytes that the software
      programs into the DMA engine. */
  lemma AdcBurst(a: Adc, n: u32, ins: seq<AdcIn>)
    requires n >= 1 && !a.busy && |ins| == n + 1 && ins[0].trig && ins[0].burst == n
    ensures var beats := AdcBeats(a, ins, |ins|);
            && |beats| == n + 1 && 8 * |beats| <= (n + 16) * 8
            && (forall i :: 0 <= i < |beats| ==> (beats[i] <==> i == n))
            && !RunAdc(a, ins, |ins|).busy
  {
    AdcRun(a, n, ins, n + 1);
  }
}
