/** What the pipeline does with jobs sent in too soon: which of them come out, and with whose nonce.  The
    runs here have any spacing and no reset. */
module ShaSpacing {
  import opened ShaPipeline
  import opened ShaPipelineProof

  ghost predicate NoReset(ins: seq<ShaIn>) { forall i :: 0 <= i < |ins| ==> !ins[i].reset }

  /** Job `i` finds the first stage free: none of the fifteen cycles before sent in a job that did. */
  ghost predicate Admitted(ins: seq<ShaIn>, i: int)
    requires i < |ins|
    decreases i
  {
    0 <= i && Fires(ins[i]) && forall j :: i - 16 < j < i ==> !Admitted(ins, j)
  }

  /** A job that was admitted came `a` cycles ago. */
  ghost predicate Inside(ins: seq<ShaIn>, a: int) { 1 <= a <= |ins| && Admitted(ins, |ins| - a) }

  lemma {:induction false} AdmittedPrefix(ins: seq<ShaIn>, more: seq<ShaIn>, i: int)
    requires i < |ins|
    ensures Admitted(ins + more, i) == Admitted(ins, i)
    decreases i
  {
    if i >= 0 {
      forall j | i - 16 < j < i
        ensures Admitted(ins + more, j) == Admitted(ins, j)
      {
        AdmittedPrefix(ins, more, j);
      }
    }
  }

  lemma InsideApart(ins: seq<ShaIn>, a: int, b: int)
    requires Inside(ins, a) && Inside(ins, b) && a < b
    ensures b - a >= 16
  {
    assert Admitted(ins, |ins| - a) && Admitted(ins, |ins| - b);
  }

  lemma InsideNext(ins: seq<ShaIn>, x: ShaIn, a: int)
    requires a >= 1
    ensures Inside(ins + [x], a + 1) == Inside(ins, a)
  {
    hide Admitted;
    if a <= |ins| {
      AdmittedPrefix(ins, [x], |ins| - a);
    }
  }

  lemma AdmittedFires(ins: seq<ShaIn>)
    requires Inside(ins, 1)
    ensures Live(ins, 1)
  {
    assert Admitted(ins, |ins| - 1);
  }

  /** A job in its first cycle was admitted exactly if no admitted one is in its second to sixteenth. */
  lemma NewestAdmitted(ins: seq<ShaIn>)
    ensures Inside(ins, 1) <==> Live(ins, 1) && forall a :: 2 <= a <= 16 ==> !Inside(ins, a)
  {
    var n := |ins| - 1;
    if Inside(ins, 1) {
      AdmittedFires(ins);
      forall a | 2 <= a <= 16
        ensures !Inside(ins, a)
      {
        if Inside(ins, a) {
          InsideApart(ins, 1, a);
        }
      }
    } else if Live(ins, 1) && forall a :: 2 <= a <= 16 ==> !Inside(ins, a) {
      forall j | n - 16 < j < n
        ensures !Admitted(ins, j)
      {
        assert !Inside(ins, |ins| - j);
      }
      assert Admitted(ins, n);
    }
  }

  /** The nonce of the youngest job among cycles `i` to `m`; that of cycle `i` itself if there is none. */
  function Newest(ins: seq<ShaIn>, i: nat, m: int): bv32
    requires i <= m < |ins|
    decreases m
  {
    if m == i || Fires(ins[m]) then ins[m].nonce else Newest(ins, i, m - 1)
  }

  lemma {:induction false} NewestPrefix(ins: seq<ShaIn>, x: ShaIn, i: nat, m: int)
    requires i <= m < |ins|
    ensures Newest(ins + [x], i, m) == Newest(ins, i, m)
    decreases m
  {
    if m > i {
      NewestPrefix(ins, x, i, m - 1);
    }
  }

  // ------------------------------------------------------------------ what the stages hold

  /** The counter of a stage follows the admitted jobs. */
  ghost predicate Follows(n: Count, ins: seq<ShaIn>, base: nat) {
    && (n != 0 ==> Inside(ins, n + 1 + base))
    && (forall a :: base + 2 <= a <= base + 16 && Inside(ins, a) ==> n == a - 1 - base)
  }

  /** The nonce travelling with the job of age `a`: every job that comes while it is in the first stage
      puts its own in the place. */
  ghost function Carried(ins: seq<ShaIn>, a: int): bv32
    requires 2 <= a <= |ins|
  {
    Newest(ins, |ins| - a, if a <= 17 then |ins| - 2 else |ins| - a + 15)
  }

  ghost predicate Stage(r: RoundRegs, ins: seq<ShaIn>, base: nat) {
    && (r.enNext <==> Inside(ins, base + 17))
    && Follows(r.counter, ins, base)
    && (forall a :: base + 2 <= a <= base + 17 && Inside(ins, a) ==> r.nonce == Carried(ins, a))
  }

  ghost predicate Passing(b: BlockRegs, ins: seq<ShaIn>) {
    && (b.start.enNext <==> Live(ins, 1))
    && (Live(ins, 1) ==> b.nonceDelay == ins[|ins| - 1].nonce)
    && Stage(b.r0, ins, 0) && Stage(b.r1, ins, 16) && Stage(b.r2, ins, 32) && Stage(b.r3, ins, 48)
    && (b.hash.enO <==> Inside(ins, 66))
    && (Inside(ins, 66) ==> b.hash.nonce == Carried(ins, 66))
  }

  /** A counter moves on with the admitted job inside, or starts with the one that arrives. */
  lemma FollowStep(n: Count, ins: seq<ShaIn>, x: ShaIn, base: nat, en: bool)
    requires Follows(n, ins, base) && (n == 0 && en <==> Inside(ins, base + 1))
    ensures Follows(if n == 0 && !en then 0 else if n == 15 then 0 else n + 1, ins + [x], base)
    ensures n == 15 <==> Inside(ins, base + 16)
  {
    hide Inside;
    InsideNext(ins, x, n + 1 + base);
    forall a | base + 2 <= a <= base + 16 && Inside(ins + [x], a)
      ensures a - 1 - base == if n == 0 && !en then 0 else if n == 15 then 0 else n + 1
    {
      InsideNext(ins, x, a - 1);
    }
  }

  /** The first stage takes a job exactly if it is admitted. */
  lemma FirstTakes(n: Count, ins: seq<ShaIn>)
    requires Follows(n, ins, 0)
    ensures n == 0 && Live(ins, 1) <==> Inside(ins, 1)
  {
    hide Inside, Live;
    NewestAdmitted(ins);
  }

  /** A later stage is free whenever one arrives. */
  lemma LaterTakes(n: Count, ins: seq<ShaIn>, base: nat)
    requires Follows(n, ins, base) && Inside(ins, base + 1)
    ensures n == 0
  {
    hide Inside;
    if n != 0 {
      InsideApart(ins, base + 1, n + 1 + base);
    }
  }

  // ------------------------------------------------------------------ the nonces

  lemma CarriedNext(ins: seq<ShaIn>, x: ShaIn, a: int)
    requires 2 <= a <= |ins|
    ensures a < 17 ==> Carried(ins + [x], a + 1) == if Live(ins, 1) then ins[|ins| - 1].nonce else Carried(ins, a)
    ensures a >= 17 ==> Carried(ins + [x], a + 1) == Carried(ins, a)
  {
    var i := |ins| - a;
    NewestPrefix(ins, x, i, if a < 17 then |ins| - 1 else i + 15);
  }

  lemma CarriedFirst(ins: seq<ShaIn>, x: ShaIn)
    requires ins != []
    ensures Carried(ins + [x], 2) == ins[|ins| - 1].nonce
  {
  }

  // ------------------------------------------------------------------ one cycle

  lemma FirstStageStep(r: RoundRegs, ins: seq<ShaIn>, x: ShaIn, y: StageIn, k: seq<bv32>)
    requires |k| == 16 && Stage(r, ins, 0)
    requires (y.en <==> Live(ins, 1)) && (y.en ==> y.nonce == ins[|ins| - 1].nonce)
    ensures Stage(RoundNext(r, false, y, k), ins + [x], 0)
  {
    hide Admitted, Live, HdlRound, Carried;
    FirstTakes(r.counter, ins);
    FollowStep(r.counter, ins, x, 0, y.en);
    InsideNext(ins, x, 16);
    forall a | 2 <= a <= 17 && Inside(ins + [x], a)
      ensures RoundNext(r, false, y, k).nonce == Carried(ins + [x], a)
    {
      InsideNext(ins, x, a - 1);
      InsideShort(ins, a - 1);
      if a == 2 {
        CarriedFirst(ins, x);
      } else {
        CarriedNext(ins, x, a - 1);
      }
    }
  }

  lemma InsideShort(ins: seq<ShaIn>, a: int)
    requires Inside(ins, a)
    ensures 1 <= a <= |ins|
  {
    hide Admitted;
  }

  lemma LaterStageStep(r: RoundRegs, before: RoundRegs, ins: seq<ShaIn>, x: ShaIn, base: nat, y: StageIn, k: seq<bv32>)
    requires |k| == 16 && Stage(r, ins, base + 16) && Stage(before, ins, base)
    requires y.en == before.enNext && y.nonce == before.nonce
    ensures Stage(RoundNext(r, false, y, k), ins + [x], base + 16)
  {
    hide Admitted, HdlRound, Carried;
    if y.en {
      LaterTakes(r.counter, ins, base + 16);
    }
    FollowStep(r.counter, ins, x, base + 16, y.en);
    InsideNext(ins, x, base + 32);
    forall a | base + 18 <= a <= base + 33 && Inside(ins + [x], a)
      ensures RoundNext(r, false, y, k).nonce == Carried(ins + [x], a)
    {
      InsideNext(ins, x, a - 1);
      InsideShort(ins, a - 1);
      CarriedNext(ins, x, a - 1);
      if a > base + 18 && y.en {
        InsideApart(ins, base + 17, a - 1);
      }
    }
  }

  lemma PassStep(b: BlockRegs, ins: seq<ShaIn>, x: ShaIn, k: Table)
    requires !x.reset && Passing(b, ins)
    ensures Passing(BlockNext(b, x, k), ins + [x])
  {
    hide Inside, Live, RoundNext, MiddleNext, FeedForward, Stage, Carried;
    FirstStageStep(b.r0, ins, x, FirstIn(b), k[0..16]);
    LaterStageStep(b.r1, b.r0, ins, x, 0, LaterIn(b.r0, b.m0), k[16..32]);
    LaterStageStep(b.r2, b.r1, ins, x, 16, LaterIn(b.r1, b.m1), k[32..48]);
    LaterStageStep(b.r3, b.r2, ins, x, 32, LaterIn(b.r2, b.m2), k[48..64]);
    InsideNext(ins, x, 65);
    LiveNext(ins, x, 1);
    LastStage(b.r3, ins, x);
  }

  lemma LastStage(r: RoundRegs, ins: seq<ShaIn>, x: ShaIn)
    requires Stage(r, ins, 48)
    ensures r.enNext <==> Inside(ins, 65)
    ensures Inside(ins, 65) ==> |ins| >= 65 && r.nonce == Carried(ins + [x], 66)
  {
    hide Inside, Carried;
    if Inside(ins, 65) {
      InsideShort(ins, 65);
      CarriedNext(ins, x, 65);
    }
  }

  lemma {:induction false} RunPasses(ins: seq<ShaIn>, k: Table)
    requires NoReset(ins)
    ensures Passing(BlockRun(ins, k), ins)
    decreases |ins|
  {
    hide BlockNext, Passing;
    if ins == [] {
      NothingPasses();
    } else {
      var n := |ins| - 1;
      assert ins[..n] + [ins[n]] == ins;
      RunPasses(ins[..n], k);
      PassStep(BlockRun(ins[..n], k), ins[..n], ins[n], k);
    }
  }

  lemma NothingPasses()
    ensures Passing(POWER_ON, [])
  {
  }

  // ------------------------------------------------------------------ whole runs

  /** In every run without reset, spaced or not: the done pulse shows in a cycle exactly if a job admitted 66
      cycles before, and with it the nonce of the last job sent in with it or in the fifteen cycles behind. */
  lemma PulsesAreAdmitted(ins: seq<ShaIn>, k: Table)
    requires NoReset(ins)
    ensures var out := BlockRun(ins, k).hash;
            && (out.enO <==> |ins| >= 66 && Admitted(ins, |ins| - 66))
            && (out.enO ==> out.nonce == Newest(ins, |ins| - 66, |ins| - 51))
  {
    hide Stage;
    RunPasses(ins, k);
  }

  /** The jobs whose pulse is due within the run are sixteen cycles apart. */
  ghost predicate SixteenApart(ins: seq<ShaIn>) {
    forall i, j :: 0 <= i < j <= |ins| - 66 && Fires(ins[i]) && Fires(ins[j]) ==> j - i >= 16
  }

  /** The done pulse shows 66 cycles after every job and at no other time. */
  ghost predicate EveryPulse(ins: seq<ShaIn>, k: Table) {
    forall j: nat :: j + 66 <= |ins| ==> (BlockRun(ins[..j + 66], k).hash.enO <==> Fires(ins[j]))
  }

  lemma PulseAt(ins: seq<ShaIn>, k: Table, j: nat)
    requires NoReset(ins) && j + 66 <= |ins|
    ensures BlockRun(ins[..j + 66], k).hash.enO <==> Admitted(ins, j)
  {
    hide Admitted, BlockRun;
    PulsesAreAdmitted(ins[..j + 66], k);
    assert ins[..j + 66] + ins[j + 66..] == ins;
    AdmittedPrefix(ins[..j + 66], ins[j + 66..], j);
  }

  /** Sixteen is exact: every job has its pulse if and only if no two are closer. */
  lemma SpacingIsExact(ins: seq<ShaIn>, k: Table)
    requires NoReset(ins)
    ensures EveryPulse(ins, k) <==> SixteenApart(ins)
  {
    hide BlockRun, Admitted;
    forall j: nat | j + 66 <= |ins|
      ensures BlockRun(ins[..j + 66], k).hash.enO <==> Admitted(ins, j)
    {
      PulseAt(ins, k, j);
    }
    AllAdmitted(ins);
  }

  lemma AllAdmitted(ins: seq<ShaIn>)
    ensures SixteenApart(ins) <==> forall j: nat :: j + 66 <= |ins| ==> (Admitted(ins, j) <==> Fires(ins[j]))
  {
    if forall j: nat :: j + 66 <= |ins| ==> (Admitted(ins, j) <==> Fires(ins[j])) {
      forall i, j | 0 <= i < j <= |ins| - 66 && Fires(ins[i]) && Fires(ins[j])
        ensures j - i >= 16
      {
        assert Admitted(ins, i) && Admitted(ins, j);
      }
    }
  }

  /** A job less than sixteen cycles behind one that found the stage free has no pulse, and that one comes
      out under the nonce of the last job of those fifteen cycles. */
  lemma EarlyJobIsLost(ins: seq<ShaIn>, k: Table, i: nat, j: nat)
    requires NoReset(ins) && i < j < i + 16 && j + 66 <= |ins|
    requires Admitted(ins, i) && Fires(ins[j])
    ensures !BlockRun(ins[..j + 66], k).hash.enO
    ensures BlockRun(ins[..i + 66], k).hash.enO
    ensures (forall l :: j < l < i + 16 ==> !Fires(ins[l])) ==> BlockRun(ins[..i + 66], k).hash.nonce == ins[j].nonce
  {
    hide BlockRun;
    PulseAt(ins, k, i);
    PulseAt(ins, k, j);
    PulsesAreAdmitted(ins[..i + 66], k);
    if forall l :: j < l < i + 16 ==> !Fires(ins[l]) {
      NewestIs(ins[..i + 66], i, j, i + 15);
    }
  }

  lemma {:induction false} NewestIs(ins: seq<ShaIn>, i: nat, j: nat, m: nat)
    requires i < j <= m < |ins| && Fires(ins[j]) && forall l :: j < l <= m ==> !Fires(ins[l])
    ensures Newest(ins, i, m) == ins[j].nonce
    decreases m
  {
    if m > j {
      NewestIs(ins, i, j, m - 1);
    }
  }
}
