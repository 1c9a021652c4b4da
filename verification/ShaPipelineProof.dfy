/** Every job sent into the pipeline comes out 66 cycles later, compressed, whatever the jobs before
    and behind it, as long as sixteen cycles lie between two of them. */
module ShaPipelineProof {
  import opened Sha
  import opened ShaLaws
  import opened ShaPipeline

  // ------------------------------------------------------------------ jobs in flight

  /** A cycle that sends a job in. */
  predicate Fires(x: ShaIn) { x.en && !x.reset }

  /** A job was sent in `a` cycles ago. */
  predicate Live(ins: seq<ShaIn>, a: int) { 1 <= a <= |ins| && Fires(ins[|ins| - a]) }

  function JobAt(ins: seq<ShaIn>, a: int): ShaIn
    requires Live(ins, a)
  {
    ins[|ins| - a]
  }

  /** At least sixteen cycles between two jobs, and no reset while one is under way. */
  ghost predicate Spaced(ins: seq<ShaIn>) {
    && (forall i, j :: 0 <= i < j < |ins| && Fires(ins[i]) && Fires(ins[j]) ==> j - i >= 16)
    && (forall i, j :: 0 <= i < j < |ins| && Fires(ins[i]) && ins[j].reset ==> j - i >= 66)
  }

  lemma LiveNext(ins: seq<ShaIn>, x: ShaIn, a: int)
    ensures Live(ins + [x], 1) == Fires(x)
    ensures a >= 1 ==> Live(ins + [x], a + 1) == Live(ins, a)
    ensures a >= 1 && Live(ins, a) ==> JobAt(ins + [x], a + 1) == JobAt(ins, a)
  {
  }

  lemma LiveApart(ins: seq<ShaIn>, a: int, b: int)
    requires Spaced(ins) && Live(ins, a) && Live(ins, b) && a < b
    ensures b - a >= 16
  {
  }

  lemma SpacedBefore(ins: seq<ShaIn>, x: ShaIn)
    requires Spaced(ins + [x])
    ensures Spaced(ins)
    ensures forall a :: Live(ins, a) && x.reset ==> a >= 66
    ensures Fires(x) ==> forall a :: Live(ins, a) ==> a >= 16
  {
    assert (ins + [x])[..|ins|] == ins;
    forall a | Live(ins, a)
      ensures x.reset ==> a >= 66
      ensures Fires(x) ==> a >= 16
    {
      var i := |ins| - a;
      assert (ins + [x])[i] == ins[i] && (ins + [x])[|ins|] == x;
    }
    forall i, j | 0 <= i < j < |ins|
      ensures Fires(ins[i]) && Fires(ins[j]) ==> j - i >= 16
      ensures Fires(ins[i]) && ins[j].reset ==> j - i >= 66
    {
      assert (ins + [x])[i] == ins[i] && (ins + [x])[j] == ins[j];
    }
  }

  // ------------------------------------------------------------------ what each stage holds

  /** The front holds a job's message, hash value and nonce for sixteen cycles. */
  ghost predicate StartInv(b: BlockRegs, ins: seq<ShaIn>) {
    && (b.start.enNext <==> Live(ins, 1))
    && (forall a :: 1 <= a <= 16 && Live(ins, a) ==>
          b.start.w == JobAt(ins, a).m && b.hDelay == JobAt(ins, a).h && b.nonceDelay == JobAt(ins, a).nonce)
  }

  /** The counter of a stage whose first step is made by jobs of age `base + 1` shows how far the job
      inside has come, and zero when there is none. */
  ghost predicate Counts(n: Count, ins: seq<ShaIn>, base: nat) {
    && (n != 0 ==> Live(ins, n + 1 + base))
    && (forall a :: base + 2 <= a <= base + 16 && Live(ins, a) ==> n == a - 1 - base)
  }

  ghost predicate Rounded(r: RoundRegs, j: ShaIn, k: Table, n: nat)
    requires n <= 64
  {
    r.v == Rounds(k, j.h, j.m, n) && r.h == j.h && r.nonce == j.nonce
  }

  /** A job of age a in or just behind the round stage has a - 1 rounds done. */
  ghost predicate StageInv(r: RoundRegs, ins: seq<ShaIn>, base: nat, k: Table)
    requires base <= 48
  {
    && (r.enNext <==> Live(ins, base + 17))
    && Counts(r.counter, ins, base)
    && (forall a :: base + 2 <= a <= base + 17 && Live(ins, a) ==> Rounded(r, JobAt(ins, a), k, a - 1))
  }

  /** Word j of the middle buffer belongs to a job from one cycle after it is computed until the next
      job may overwrite it: sixteen cycles, one later for each word. */
  ghost predicate MiddleInv(m: MiddleRegs, ins: seq<ShaIn>, base: nat)
    requires base <= 32
  {
    && Counts(m.cnt, ins, base)
    && (forall a, j :: 0 <= j < 16 && base + 2 + j <= a <= base + 17 + j && Live(ins, a) ==>
          m.buf[j] == W(JobAt(ins, a).m, base + 16 + j))
  }

  ghost predicate HashInv(r: HashRegs, ins: seq<ShaIn>, k: Table) {
    && (r.enO <==> Live(ins, 66))
    && (Live(ins, 66) ==> r.h == Compress(k, JobAt(ins, 66).h, JobAt(ins, 66).m) && r.nonce == JobAt(ins, 66).nonce)
  }

  ghost predicate Flight(b: BlockRegs, ins: seq<ShaIn>, k: Table) {
    && StartInv(b, ins)
    && MiddleInv(b.m0, ins, 0) && MiddleInv(b.m1, ins, 16) && MiddleInv(b.m2, ins, 32)
    && StageInv(b.r0, ins, 0, k) && StageInv(b.r1, ins, 16, k)
    && StageInv(b.r2, ins, 32, k) && StageInv(b.r3, ins, 48, k)
    && HashInv(b.hash, ins, k)
  }

  // ------------------------------------------------------------------ one cycle of each stage

  lemma StartStep(b: BlockRegs, ins: seq<ShaIn>, x: ShaIn, k: Table)
    requires Spaced(ins + [x]) && StartInv(b, ins)
    ensures StartInv(BlockNext(b, x, k), ins + [x])
  {
    hide RoundNext, MiddleNext, HashNext, Live, Spaced;
    SpacedBefore(ins, x);
    var b' := BlockNext(b, x, k);
    forall a | 1 <= a <= 16 && Live(ins + [x], a)
      ensures var j := JobAt(ins + [x], a); b'.start.w == j.m && b'.hDelay == j.h && b'.nonceDelay == j.nonce
    {
      LiveNext(ins, x, a - 1);
    }
    LiveNext(ins, x, 1);
  }

  /** A counter moves on with the job inside, or starts with the one that arrives. */
  lemma CountStep(n: Count, ins: seq<ShaIn>, x: ShaIn, base: nat, en: bool)
    requires Spaced(ins + [x]) && Counts(n, ins, base) && (en <==> Live(ins, base + 1))
    ensures Counts(if n == 0 && !en then 0 else if n == 15 then 0 else n + 1, ins + [x], base)
    ensures n != 0 ==> !en
  {
    hide Spaced, Live;
    SpacedBefore(ins, x);
    if n != 0 && en {
      LiveApart(ins, base + 1, n + 1 + base);
    }
    LiveNext(ins, x, n + 1 + base);
    forall a | base + 2 <= a <= base + 16 && Live(ins + [x], a)
      ensures a - 1 - base == if n == 0 && !en then 0 else if n == 15 then 0 else n + 1
    {
      LiveNext(ins, x, a - 1);
      if a - 1 == base + 1 && n != 0 {
        LiveApart(ins, a - 1, n + 1 + base);
      }
    }
  }

  /** What the words coming into a middle stage must be while a job is in it: word j need only be right
      until the stage has used it, in the job's step j. */
  ghost predicate Fed(win: Msg, ins: seq<ShaIn>, base: nat)
    requires base <= 32
  {
    forall a, j :: base + 1 <= a <= base + 1 + j && j < 16 && Live(ins, a) ==> win[j] == W(JobAt(ins, a).m, base + j)
  }

  /** The word computed in step j of a job is its schedule word. */
  lemma NewWord(m: MiddleRegs, ins: seq<ShaIn>, base: nat, win: Msg, j: nat)
    requires j < 16 && base <= 32 && MiddleInv(m, ins, base) && Fed(win, ins, base)
    requires Live(ins, base + 1 + j)
    ensures HdlExtend(Window(win, m.buf, 14 + j), Window(win, m.buf, 9 + j), Window(win, m.buf, 1 + j),
                      Window(win, m.buf, j))
         == W(JobAt(ins, base + 1 + j).m, base + 16 + j)
  {
    hide Extend, HdlExtend, Live, W, Counts;
    ExtendAgrees(Window(win, m.buf, 14 + j), Window(win, m.buf, 9 + j), Window(win, m.buf, 1 + j),
                 Window(win, m.buf, j));
    var msg := JobAt(ins, base + 1 + j).m;
    WindowIs(m, ins, base, win, j, 14 + j);
    WindowIs(m, ins, base, win, j, 9 + j);
    WindowIs(m, ins, base, win, j, 1 + j);
    WindowIs(m, ins, base, win, j, j);
    ScheduleStep(msg, base + 16 + j);
  }

  /** Whatever is in the window, the word written to the buffer follows the recurrence of FIPS 180-4 section
      6.2.2: it is the sum of the words 16 and 7 places before it and the functions of those 15 and 2 before. */
  lemma WrittenWord(m: MiddleRegs, en: bool, win: Msg)
    requires m.cnt != 0 || en
    ensures var t := 16 + m.cnt;
            Extends(MiddleNext(m, en, win).buf[m.cnt], Window(win, m.buf, t - 2), Window(win, m.buf, t - 7),
                    Window(win, m.buf, t - 15), Window(win, m.buf, t - 16))
    ensures forall j: nat :: j < 16 && j != m.cnt ==> MiddleNext(m, en, win).buf[j] == m.buf[j]
  {
    hide Extend, HdlExtend, Extends, Window;
    var t := 16 + m.cnt;
    var w2, w7 := Window(win, m.buf, t - 2), Window(win, m.buf, t - 7);
    var w15, w16 := Window(win, m.buf, t - 15), Window(win, m.buf, t - 16);
    ExtendAgrees(w2, w7, w15, w16);
    ExtendIsSum(w2, w7, w15, w16);
  }

  /** The words a job may look at in its step j. */
  lemma WindowIs(m: MiddleRegs, ins: seq<ShaIn>, base: nat, win: Msg, j: nat, i: nat)
    requires j < 16 && base <= 32 && MiddleInv(m, ins, base) && Fed(win, ins, base)
    requires Live(ins, base + 1 + j) && j <= i < 16 + j
    ensures Window(win, m.buf, i) == W(JobAt(ins, base + 1 + j).m, base + i)
  {
  }

  lemma MiddleStep(m: MiddleRegs, ins: seq<ShaIn>, x: ShaIn, base: nat, en: bool, win: Msg)
    requires base <= 32 && Spaced(ins + [x]) && MiddleInv(m, ins, base)
    requires (en <==> Live(ins, base + 1)) && Fed(win, ins, base)
    ensures MiddleInv(MiddleNext(m, en, win), ins + [x], base)
  {
    hide Spaced, Live, W, HdlExtend, Window, Fed;
    SpacedBefore(ins, x);
    CountStep(m.cnt, ins, x, base, en);
    var m' := MiddleNext(m, en, win);
    forall a, j | 0 <= j < 16 && base + 2 + j <= a <= base + 17 + j && Live(ins + [x], a)
      ensures m'.buf[j] == W(JobAt(ins + [x], a).m, base + 16 + j)
    {
      LiveNext(ins, x, a - 1);
      if a - 1 == base + 1 + j {
        NewWord(m, ins, base, win, j);
      } else {
        Kept(m.cnt, ins, base, en, a - 1, j);
      }
    }
  }

  /** The stage does not write a word that still belongs to a job. */
  lemma Kept(n: Count, ins: seq<ShaIn>, base: nat, en: bool, a: int, j: nat)
    requires Spaced(ins) && Counts(n, ins, base) && (en <==> Live(ins, base + 1))
    requires j < 16 && base + 2 + j <= a <= base + 16 + j && Live(ins, a)
    ensures n == j ==> n == 0 && !en
  {
  }

  /** What a round stage must be offered when a job arrives, and while it is in it. */
  ghost predicate Offered(x: StageIn, ins: seq<ShaIn>, base: nat, k: Table)
    requires base <= 48
  {
    && (x.en <==> Live(ins, base + 1))
    && (x.en ==> var j := JobAt(ins, base + 1); x.v == Rounds(k, j.h, j.m, base) && x.h == j.h && x.nonce == j.nonce)
    && (forall a :: base + 1 <= a <= base + 16 && Live(ins, a) ==> x.w[a - 1 - base] == W(JobAt(ins, a).m, a - 1))
  }

  lemma CounterAt(n: Count, ins: seq<ShaIn>, base: nat, a: int)
    requires Counts(n, ins, base) && base <= 48
    ensures Live(ins, a) && base + 2 <= a <= base + 16 ==> n == a - 1 - base
    ensures n == 15 <==> Live(ins, base + 16)
    ensures (forall b :: Live(ins, b) ==> b >= 66) ==> n == 0
  {
    hide Live;
  }

  lemma StageStep(r: RoundRegs, ins: seq<ShaIn>, x: ShaIn, base: nat, k: Table, y: StageIn)
    requires base <= 48 && Spaced(ins + [x]) && StageInv(r, ins, base, k) && Offered(y, ins, base, k)
    ensures StageInv(RoundNext(r, x.reset, y, k[base..base + 16]), ins + [x], base, k)
  {
    hide Spaced, Live, W, HdlRound, Rounds, Counts;
    SpacedBefore(ins, x);
    CountStep(r.counter, ins, x, base, y.en);
    LiveNext(ins, x, base + 16);
    var r' := RoundNext(r, x.reset, y, k[base..base + 16]);
    CounterAt(r.counter, ins, base, base + 16);
    forall a | base + 2 <= a <= base + 17 && Live(ins + [x], a)
      ensures Rounded(r', JobAt(ins + [x], a), k, a - 1)
    {
      LiveNext(ins, x, a - 1);
      StageRound(r, ins, x, base, k, y, a - 1);
    }
  }

  /** One round for the job of age `a`. */
  lemma StageRound(r: RoundRegs, ins: seq<ShaIn>, x: ShaIn, base: nat, k: Table, y: StageIn, a: int)
    requires base <= 48 && !x.reset && Spaced(ins) && StageInv(r, ins, base, k) && Offered(y, ins, base, k)
    requires base + 1 <= a <= base + 16 && Live(ins, a)
    ensures Rounded(RoundNext(r, x.reset, y, k[base..base + 16]), JobAt(ins, a), k, a)
  {
    hide Spaced, Live, W, Round, HdlRound, Rounds;
    var j := JobAt(ins, a);
    RoundAgrees(if r.counter == 0 then y.v else r.v, k[base..base + 16][r.counter], y.w[r.counter]);
    if a > base + 1 && y.en {
      LiveApart(ins, base + 1, a);
    }
    if a == base + 1 && r.counter != 0 {
      LiveApart(ins, a, r.counter + 1 + base);
    }
    CounterAt(r.counter, ins, base, a);
    RoundsStep(k, j.h, j.m, a - 1);
  }

  lemma HashStep(r: HashRegs, ins: seq<ShaIn>, x: ShaIn, k: Table, last: RoundRegs)
    requires Spaced(ins + [x]) && StageInv(last, ins, 48, k)
    ensures HashInv(HashNext(r, x.reset, last), ins + [x], k)
  {
    hide Spaced, Live, Rounds, Plus, FeedForward, Counts;
    FeedForwardAgrees(last.h, last.v);
    SpacedBefore(ins, x);
    LiveNext(ins, x, 65);
  }

  // ------------------------------------------------------------------ what the stages offer each other

  lemma FirstOffered(b: BlockRegs, ins: seq<ShaIn>, k: Table)
    requires StartInv(b, ins)
    ensures Offered(FirstIn(b), ins, 0, k) && Fed(b.start.w, ins, 0)
  {
    hide Live, HdlExtend, HdlRound;
  }

  /** A job meets its own schedule words one by one: word c is read in step c, just before the next job
      can replace it. */
  lemma LaterOffered(r: RoundRegs, m: MiddleRegs, ins: seq<ShaIn>, base: nat, k: Table)
    requires base <= 32 && StageInv(r, ins, base, k) && MiddleInv(m, ins, base)
    ensures Offered(LaterIn(r, m), ins, base + 16, k)
  {
    hide Live, W, Rounds, Counts;
  }

  lemma LaterFed(m: MiddleRegs, ins: seq<ShaIn>, base: nat)
    requires base <= 16 && MiddleInv(m, ins, base)
    ensures Fed(m.buf, ins, base + 16)
  {
    hide Live, W, Counts;
  }

  lemma FlightStep(b: BlockRegs, ins: seq<ShaIn>, x: ShaIn, k: Table)
    requires Spaced(ins + [x]) && Flight(b, ins, k)
    ensures Flight(BlockNext(b, x, k), ins + [x], k)
  {
    hide Spaced, Live, StartInv, StageInv, MiddleInv, Offered, Fed, FirstIn, LaterIn;
    hide MiddleNext, RoundNext, HashNext, HashInv;
    StartStep(b, ins, x, k);
    FirstOffered(b, ins, k);
    EnablesOf(b, ins, k);
    MiddleStep(b.m0, ins, x, 0, b.start.enNext, b.start.w);
    LaterFed(b.m0, ins, 0);
    MiddleStep(b.m1, ins, x, 16, b.r0.enNext, b.m0.buf);
    LaterFed(b.m1, ins, 16);
    MiddleStep(b.m2, ins, x, 32, b.r1.enNext, b.m1.buf);
    StageStep(b.r0, ins, x, 0, k, FirstIn(b));
    LaterOffered(b.r0, b.m0, ins, 0, k);
    StageStep(b.r1, ins, x, 16, k, LaterIn(b.r0, b.m0));
    LaterOffered(b.r1, b.m1, ins, 16, k);
    StageStep(b.r2, ins, x, 32, k, LaterIn(b.r1, b.m1));
    LaterOffered(b.r2, b.m2, ins, 32, k);
    StageStep(b.r3, ins, x, 48, k, LaterIn(b.r2, b.m2));
    HashStep(b.hash, ins, x, k, b.r3);
  }

  lemma EnablesOf(b: BlockRegs, ins: seq<ShaIn>, k: Table)
    requires Flight(b, ins, k)
    ensures b.start.enNext <==> Live(ins, 1)
    ensures b.r0.enNext <==> Live(ins, 17)
    ensures b.r1.enNext <==> Live(ins, 33)
  {
    hide Live, MiddleInv, HashInv;
  }

  // ------------------------------------------------------------------ whole runs

  lemma {:induction false} RunInFlight(ins: seq<ShaIn>, k: Table)
    requires Spaced(ins)
    ensures Flight(BlockRun(ins, k), ins, k)
    decreases |ins|
  {
    hide Spaced, BlockNext, StartInv, MiddleInv, StageInv, HashInv;
    if ins == [] {
      NothingInFlight(k);
    } else {
      var n := |ins| - 1;
      assert ins[..n] + [ins[n]] == ins;
      SpacedBefore(ins[..n], ins[n]);
      RunInFlight(ins[..n], k);
      FlightStep(BlockRun(ins[..n], k), ins[..n], ins[n], k);
    }
  }

  lemma NothingInFlight(k: Table)
    ensures Flight(POWER_ON, [], k)
  {
    hide W, Rounds;
  }

  /** The pipeline theorem.  With any number of jobs at least sixteen cycles apart, so up to five at a
      time inside: the done pulse shows in a cycle exactly if a job was sent in 66 cycles before, and
      then the outputs are the compression of that job's message with that job's hash value, and that
      job's nonce. */
  lemma PipelineComputes(ins: seq<ShaIn>, k: Table)
    requires Spaced(ins)
    ensures var out := BlockRun(ins, k).hash;
            && (out.enO <==> |ins| >= 66 && Fires(ins[|ins| - 66]))
            && (out.enO ==>
                  var job := ins[|ins| - 66];
                  out.h == Compress(k, job.h, job.m) && out.nonce == job.nonce)
  {
    hide Compress, Spaced, StartInv, MiddleInv, StageInv;
    RunInFlight(ins, k);
  }
}
