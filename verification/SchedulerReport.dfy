/** What the results of an iteration say: they are the differences between the sequences before and
    after it, line by line. */
module SchedulerReport {
  import opened Wrappers
  import opened Counting
  import opened PageTable
  import opened Sequences
  import opened SchedulerSpec
  import opened SchedulerInvariants

  /** The sequence with this id. */
  function Find(ss: seq<Sequence>, id: nat): Option<Sequence> {
    if ss == [] then None else if ss[0].id == id then Some(ss[0]) else Find(ss[1..], id)
  }

  /** What is to be reported of an active sequence `s`, given the sequences before the iteration: the
      prompt tokens by which its cursor rose and its phase now. */
  function PrefillLine(before: seq<Sequence>, s: Sequence): seq<StepResult> {
    var was := Find(before, s.id);
    if was.Some? && s.cursor > was.value.cursor then
      [StepResult(s.id, true, s.cursor - was.value.cursor, s.phase)]
    else []
  }

  function PrefillLines(before: seq<Sequence>, active: seq<Sequence>): seq<StepResult> {
    if active == [] then [] else PrefillLine(before, active[0]) + PrefillLines(before, active[1..])
  }

  /** What is to be reported of a sequence `s` that was active, given the sequences that are active or
      newly finished after the iteration: the tokens generated and its phase now. */
  function DecodeLine(s: Sequence, after: seq<Sequence>): seq<StepResult> {
    var now := Find(after, s.id);
    if now.Some? && |now.value.generated| > |s.generated| then
      [StepResult(s.id, false, |now.value.generated| - |s.generated|, now.value.phase)]
    else []
  }

  function DecodeLines(active: seq<Sequence>, after: seq<Sequence>): seq<StepResult> {
    if active == [] then [] else DecodeLine(active[0], after) + DecodeLines(active[1..], after)
  }

  // ---------------------------------------------------------------------------------------
  // Looking up
  // ---------------------------------------------------------------------------------------

  lemma {:induction false} FindAt(ss: seq<Sequence>, k: nat)
    requires Distinct(Ids(ss)) && k < |ss|
    ensures Find(ss, ss[k].id) == Some(ss[k])
  {
    assert Ids(ss)[1..] == Ids(ss[1..]);
    if k > 0 {
      assert Ids(ss[1..])[k - 1] == ss[k].id;
      FindAt(ss[1..], k - 1);
    }
  }

  /** The prefill loops change sequences in place: only the cursor and the phase, and only in the
      prefill phase. */
  ghost predicate InPlace(a: seq<Sequence>, b: seq<Sequence>) {
    |a| == |b| && forall i :: 0 <= i < |a| ==> Advanced(a[i], b[i])
  }

  ghost predicate Advanced(s: Sequence, s': Sequence) {
    && s'.id == s.id && s'.generated == s.generated && s'.prompt == s.prompt && s'.maxNew == s.maxNew
    && s.cursor <= s'.cursor && (s.phase != Prefill ==> s' == s)
  }

  /** The difference of two lists of the same sequences. */
  function Line(s: Sequence, s': Sequence): seq<StepResult> {
    if s'.cursor > s.cursor then [StepResult(s'.id, true, s'.cursor - s.cursor, s'.phase)] else []
  }

  function Lines(a: seq<Sequence>, b: seq<Sequence>): seq<StepResult>
    requires |a| == |b|
  {
    if a == [] then [] else Line(a[0], b[0]) + Lines(a[1..], b[1..])
  }

  lemma {:induction false} LinesSum(a: seq<Sequence>, b: seq<Sequence>, c: seq<Sequence>, d: seq<Sequence>)
    requires |a| == |b| && |c| == |d|
    ensures Lines(a + c, b + d) == Lines(a, b) + Lines(c, d)
  {
    if a == [] {
      assert a + c == c && b + d == d;
    } else {
      assert (a + c)[1..] == a[1..] + c && (b + d)[1..] == b[1..] + d;
      LinesSum(a[1..], b[1..], c, d);
    }
  }

  /** Position by position is the same as by id, if each was sequence can be found by its id with its
      cursor. */
  lemma {:induction false} LinesById(a: seq<Sequence>, b: seq<Sequence>, before: seq<Sequence>)
    requires InPlace(a, b)
    requires forall i :: 0 <= i < |a| ==> FoundWithCursor(before, a[i])
    ensures Lines(a, b) == PrefillLines(before, b)
  {
    if a != [] {
      assert Advanced(a[0], b[0]) && FoundWithCursor(before, a[0]);
      forall i | 0 <= i < |a[1..]| ensures Advanced(a[1..][i], b[1..][i]) && FoundWithCursor(before, a[1..][i]) {
        assert Advanced(a[i + 1], b[i + 1]) && FoundWithCursor(before, a[i + 1]);
      }
      LinesById(a[1..], b[1..], before);
    }
  }

  ghost predicate FoundWithCursor(before: seq<Sequence>, s: Sequence) {
    var was := Find(before, s.id);
    was.Some? && was.value.cursor == s.cursor
  }

  // ---------------------------------------------------------------------------------------
  // The prefill loop
  // ---------------------------------------------------------------------------------------

  lemma PrefillOneLine(cfg: Config, w: Work, i: nat)
    requires cfg.blockSize > 0 && i < |w.st.active| && w.budget > 0
    requires w.st.active[i].cursor <= |w.st.active[i].prompt|
    ensures var w' := PrefillOne(cfg, w, i);
            && w'.st.active == w.st.active[i := w'.st.active[i]] && Advanced(w.st.active[i], w'.st.active[i])
            && w'.results == w.results + Line(w.st.active[i], w'.st.active[i])
            && w'.st.waiting == w.st.waiting && w'.st.finished == w.st.finished
  {
    var s := w.st.active[i];
    ChunkSequence(cfg, w.st.pool, s, w.budget);
    assert w.st.active[i := s] == w.st.active && w.results + [] == w.results;
  }

  lemma {:induction false} PrefillLoopLines(cfg: Config, w: Work, i: nat)
    requires cfg.blockSize > 0 && Inv(cfg, w.st) && i <= |w.st.active|
    ensures var w' := PrefillLoop(cfg, w, i);
            && |w'.st.active| == |w.st.active| && w'.st.active[..i] == w.st.active[..i]
            && InPlace(w.st.active[i..], w'.st.active[i..])
            && w'.results == w.results + Lines(w.st.active[i..], w'.st.active[i..])
            && w'.st.waiting == w.st.waiting && w'.st.finished == w.st.finished
    decreases |w.st.active| - i
  {
    if i < |w.st.active| && w.budget > 0 {
      var w1 := PrefillOne(cfg, w, i);
      assert ActiveOk(cfg, w.st.pool, w.st.active[i]);
      PrefillOneLine(cfg, w, i);
      PrefillOneCorrect(cfg, w, i);
      PrefillLoopLines(cfg, w1, i + 1);
      PrefillLoopStep(w, w1, PrefillLoop(cfg, w1, i + 1), i);
    } else {
      LinesSame(w.st.active[i..]);
      assert w.results + [] == w.results;
    }
  }

  lemma {:induction false} LinesSame(a: seq<Sequence>)
    ensures Lines(a, a) == [] && InPlace(a, a)
  {
    if a != [] { LinesSame(a[1..]); }
  }

  lemma PrefillLoopStep(w: Work, w1: Work, w': Work, i: nat)
    requires i < |w.st.active| == |w1.st.active| == |w'.st.active|
    requires w1.st.active == w.st.active[i := w1.st.active[i]] && Advanced(w.st.active[i], w1.st.active[i])
    requires w1.results == w.results + Line(w.st.active[i], w1.st.active[i])
    requires w'.st.active[..i + 1] == w1.st.active[..i + 1] && InPlace(w1.st.active[i + 1..], w'.st.active[i + 1..])
    requires w'.results == w1.results + Lines(w1.st.active[i + 1..], w'.st.active[i + 1..])
    ensures w'.st.active[..i] == w.st.active[..i] && InPlace(w.st.active[i..], w'.st.active[i..])
    ensures w'.results == w.results + Lines(w.st.active[i..], w'.st.active[i..])
  {
    var a, b := w.st.active[i..], w'.st.active[i..];
    assert w'.st.active[i] == w'.st.active[..i + 1][i] == w1.st.active[i];
    assert w'.st.active[..i] == w'.st.active[..i + 1][..i] == w1.st.active[..i + 1][..i] == w.st.active[..i];
    assert a[1..] == w1.st.active[i + 1..] && b[1..] == w'.st.active[i + 1..];
    forall j | 0 <= j < |a| ensures Advanced(a[j], b[j]) {
      if j > 0 { assert Advanced(a[1..][j - 1], b[1..][j - 1]); }
    }
  }

  // ---------------------------------------------------------------------------------------
  // The admission loop
  // ---------------------------------------------------------------------------------------

  lemma AdmitOneLine(cfg: Config, w: Work)
    requires cfg.blockSize > 0 && w.st.waiting != [] && w.budget > 0 && WaitingOk(w.st.pool, w.st.waiting[0])
    ensures var (w1, more) := AdmitOne(cfg, w);
            var n := |w.st.active|;
            && w1.st.finished == w.st.finished
            && (!more ==> w1.st.active == w.st.active && w1.results == w.results)
            && (more ==>
                  && w1.st.waiting == w.st.waiting[1..] && |w1.st.active| == n + 1 && w1.st.active[..n] == w.st.active
                  && Advanced(w.st.waiting[0], w1.st.active[n])
                  && w1.results == w.results + Line(w.st.waiting[0], w1.st.active[n]))
  {
    ChunkSequence(cfg, w.st.pool, w.st.waiting[0], w.budget);
  }

  /** The admission loop moves the first `m` waiting sequences, advanced, behind the active ones. */
  lemma {:induction false} AdmitLoopLines(cfg: Config, w: Work) returns (m: nat)
    requires cfg.blockSize > 0 && Inv(cfg, w.st)
    ensures var w' := AdmitLoop(cfg, w);
            && m <= |w.st.waiting| && |w'.st.active| == |w.st.active| + m
            && w'.st.active[..|w.st.active|] == w.st.active
            && InPlace(w.st.waiting[..m], w'.st.active[|w.st.active|..])
            && w'.results == w.results + Lines(w.st.waiting[..m], w'.st.active[|w.st.active|..])
            && w'.st.finished == w.st.finished
    decreases |w.st.waiting|
  {
    m := 0;
    if w.budget > 0 && w.st.waiting != [] {
      var (w1, more) := AdmitOne(cfg, w);
      assert WaitingOk(w.st.pool, w.st.waiting[0]);
      AdmitOneLine(cfg, w);
      if more {
        AdmitOneCorrect(cfg, w);
        var k := AdmitLoopLines(cfg, w1);
        m := k + 1;
        AdmitLoopStep(w, w1, AdmitLoop(cfg, w1), k);
        return;
      }
    }
    assert w.results + [] == w.results;
  }

  lemma AdmitLoopStep(w: Work, w1: Work, w': Work, k: nat)
    requires w.st.waiting != [] && w1.st.waiting == w.st.waiting[1..]
    requires |w1.st.active| == |w.st.active| + 1 && w1.st.active[..|w.st.active|] == w.st.active
    requires Advanced(w.st.waiting[0], w1.st.active[|w.st.active|])
    requires w1.results == w.results + Line(w.st.waiting[0], w1.st.active[|w.st.active|])
    requires k <= |w1.st.waiting| && |w'.st.active| == |w1.st.active| + k
    requires w'.st.active[..|w1.st.active|] == w1.st.active
    requires InPlace(w1.st.waiting[..k], w'.st.active[|w1.st.active|..])
    requires w'.results == w1.results + Lines(w1.st.waiting[..k], w'.st.active[|w1.st.active|..])
    ensures w'.st.active[..|w.st.active|] == w.st.active
    ensures InPlace(w.st.waiting[..k + 1], w'.st.active[|w.st.active|..])
    ensures w'.results == w.results + Lines(w.st.waiting[..k + 1], w'.st.active[|w.st.active|..])
  {
    var n := |w.st.active|;
    var a, b := w.st.waiting[..k + 1], w'.st.active[n..];
    assert w'.st.active[n] == w'.st.active[..n + 1][n] == w1.st.active[n];
    assert w'.st.active[..n] == w'.st.active[..n + 1][..n] == w1.st.active[..n];
    assert a[1..] == w1.st.waiting[..k] && b[1..] == w'.st.active[n + 1..];
    forall j | 0 <= j < |a| ensures Advanced(a[j], b[j]) {
      if j > 0 { assert Advanced(a[1..][j - 1], b[1..][j - 1]); }
    }
  }

  // ---------------------------------------------------------------------------------------
  // The decode loop
  // ---------------------------------------------------------------------------------------

  /** What the decode loop does to one sequence: nothing, or one token and perhaps the end. */
  ghost predicate Decoded(s: Sequence, s': Sequence) {
    s' == s || (
      && s.phase == Decode && s'.id == s.id && s'.cursor == s.cursor && |s'.generated| == |s.generated| + 1
      && (s'.phase == Decode || s'.phase == Finished))
  }

  function Gain(s: Sequence, s': Sequence): seq<StepResult> {
    if |s'.generated| > |s.generated| then [StepResult(s'.id, false, |s'.generated| - |s.generated|, s'.phase)] else []
  }

  function Gains(a: seq<Sequence>, b: seq<Sequence>): seq<StepResult>
    requires |a| == |b|
  {
    if a == [] then [] else Gain(a[0], b[0]) + Gains(a[1..], b[1..])
  }

  function Unfinished(ss: seq<Sequence>): seq<Sequence> {
    if ss == [] then [] else (if ss[0].phase == Finished then [] else [ss[0]]) + Unfinished(ss[1..])
  }

  function Done(ss: seq<Sequence>): seq<Sequence> {
    if ss == [] then [] else (if ss[0].phase == Finished then [ss[0]] else []) + Done(ss[1..])
  }

  ghost predicate AllDecoded(a: seq<Sequence>, b: seq<Sequence>) {
    |a| == |b| && forall i :: 0 <= i < |a| ==> Decoded(a[i], b[i])
  }

  /** From index `i` on the loop turns the rest of the active set into `b`, of which the unfinished
      stay and the finished go. */
  ghost predicate DecodeTurns(w: Work, w': Work, i: nat, b: seq<Sequence>)
    requires i <= |w.st.active|
  {
    && AllDecoded(w.st.active[i..], b) && w'.st.active == w.st.active[..i] + Unfinished(b)
    && w'.st.finished == w.st.finished + Done(b) && w'.st.waiting == w.st.waiting
    && w'.results == w.results + Gains(w.st.active[i..], b)
  }

  lemma OneTurned(s: Sequence)
    ensures Unfinished([s]) == if s.phase == Finished then [] else [s]
    ensures Done([s]) == if s.phase == Finished then [s] else []
  {}

  lemma DecodeOneTurns(cfg: Config, w: Work, i: nat) returns (s': Sequence)
    requires cfg.blockSize > 0 && i < |w.st.active| && w.budget > 0 && w.st.active[i].phase != Finished
    ensures var (w1, i1) := DecodeOne(cfg, w, i);
            var s := w.st.active[i];
            && Decoded(s, s') && i1 == (if s'.phase == Finished then i else i + 1)
            && w1.st.active == w.st.active[..i] + Unfinished([s']) + w.st.active[i + 1..]
            && w1.st.finished == w.st.finished + Done([s']) && w1.st.waiting == w.st.waiting
            && w1.results == w.results + Gain(s, s')
  {
    var s := w.st.active[i];
    var (w1, i1) := DecodeOne(cfg, w, i);
    var g := EnsureCapacity(w.st.pool, s.id, s.TotalTokens() + 1, cfg.blockSize);
    var t := s.(generated := s.generated + [PLACEHOLDER]);
    s' := if s.phase != Decode || !g.ok then s else if |t.generated| >= t.maxNew then t.(phase := Finished) else t;
    assert w.st.active == w.st.active[..i] + [s] + w.st.active[i + 1..];
    if s' == s {
      assert w.results + [] == w.results && w.st.finished + [] == w.st.finished;
    } else if s' == t {
      assert w.st.active[i := t] == w.st.active[..i] + [t] + w.st.active[i + 1..];
      assert w.st.finished + [] == w.st.finished;
    } else {
      assert w.st.active[..i] + [] == w.st.active[..i];
    }
    OneTurned(s');
  }

  lemma {:induction false} DecodeLoopTurns(cfg: Config, w: Work, i: nat) returns (b: seq<Sequence>)
    requires cfg.blockSize > 0 && Inv(cfg, w.st) && i <= |w.st.active|
    ensures DecodeTurns(w, DecodeLoop(cfg, w, i), i, b)
    decreases |w.st.active| - i
  {
    if i < |w.st.active| && w.budget > 0 {
      var (w1, i1) := DecodeOne(cfg, w, i);
      assert ActiveOk(cfg, w.st.pool, w.st.active[i]);
      DecodeOneInv(cfg, w, i);
      var s' := DecodeOneTurns(cfg, w, i);
      var b1 := DecodeLoopTurns(cfg, w1, i1);
      b := [s'] + b1;
      DecodeStep(w, w1, DecodeLoop(cfg, w1, i1), i, i1, s', b1);
    } else {
      b := w.st.active[i..];
      NoTurns(cfg, w, i);
    }
  }

  lemma NoTurns(cfg: Config, w: Work, i: nat)
    requires cfg.blockSize > 0 && Inv(cfg, w.st) && i <= |w.st.active|
    ensures DecodeTurns(w, w, i, w.st.active[i..])
  {
    var rest := w.st.active[i..];
    forall j | 0 <= j < |rest| ensures rest[j].phase != Finished {
      assert ActiveOk(cfg, w.st.pool, w.st.active[i + j]);
    }
    NothingDecoded(rest);
    assert w.st.active[..i] + rest == w.st.active;
    assert w.results + [] == w.results && w.st.finished + [] == w.st.finished;
  }

  lemma {:induction false} NothingDecoded(a: seq<Sequence>)
    requires forall j :: 0 <= j < |a| ==> a[j].phase != Finished
    ensures AllDecoded(a, a) && Unfinished(a) == a && Done(a) == [] && Gains(a, a) == []
  {
    if a != [] {
      NothingDecoded(a[1..]);
      assert a == [a[0]] + a[1..];
    }
  }

  /** A list cut behind its middle part. */
  lemma Cut(before: seq<Sequence>, middle: seq<Sequence>, after: seq<Sequence>, i: nat)
    requires i == |before| + |middle|
    ensures var all := before + middle + after;
            i <= |all| && all[..i] == before + middle && all[i..] == after
  {}

  lemma FirstOf(s': Sequence, b1: seq<Sequence>)
    ensures Unfinished([s'] + b1) == Unfinished([s']) + Unfinished(b1)
    ensures Done([s'] + b1) == Done([s']) + Done(b1)
    ensures |Unfinished([s'])| == if s'.phase == Finished then 0 else 1
  {
    var b := [s'] + b1;
    assert b[0] == s' && b[1..] == b1;
    assert [s'][1..] == [];
    if s'.phase == Finished {
      assert Unfinished([s']) == [] && Done([s']) == [s'];
    } else {
      assert Unfinished([s']) == [s'] && Done([s']) == [];
    }
  }

  lemma AllDecodedFirst(s: Sequence, s': Sequence, a1: seq<Sequence>, b1: seq<Sequence>)
    requires Decoded(s, s') && AllDecoded(a1, b1)
    ensures AllDecoded([s] + a1, [s'] + b1)
    ensures Gains([s] + a1, [s'] + b1) == Gain(s, s') + Gains(a1, b1)
  {
    var a, b := [s] + a1, [s'] + b1;
    forall j | 0 <= j < |a| ensures Decoded(a[j], b[j]) {
      if j > 0 { assert Decoded(a1[j - 1], b1[j - 1]); }
    }
    assert a[1..] == a1 && b[1..] == b1;
  }

  lemma DecodeStep(w: Work, w1: Work, w': Work, i: nat, i1: nat, s': Sequence, b1: seq<Sequence>)
    requires i < |w.st.active| && Decoded(w.st.active[i], s') && i1 == (if s'.phase == Finished then i else i + 1)
    requires w1.st.active == w.st.active[..i] + Unfinished([s']) + w.st.active[i + 1..]
    requires w1.st.finished == w.st.finished + Done([s']) && w1.st.waiting == w.st.waiting
    requires w1.results == w.results + Gain(w.st.active[i], s')
    requires i1 <= |w1.st.active| && DecodeTurns(w1, w', i1, b1)
    ensures DecodeTurns(w, w', i, [s'] + b1)
  {
    var before, after := w.st.active[..i], w.st.active[i + 1..];
    FirstOf(s', b1);
    Cut(before, Unfinished([s']), after, i1);
    AllDecodedFirst(w.st.active[i], s', after, b1);
    assert w.st.active[i..] == [w.st.active[i]] + after;
    Regroup(before, Unfinished([s']), Unfinished(b1));
    Regroup(w.st.finished, Done([s']), Done(b1));
    Regroup(w.results, Gain(w.st.active[i], s'), Gains(after, b1));
  }

  lemma Regroup<T>(a: seq<T>, b: seq<T>, c: seq<T>)
    ensures (a + b) + c == a + (b + c)
  {}

  // ---------------------------------------------------------------------------------------
  // How large the chunks are
  // ---------------------------------------------------------------------------------------

  /** A chunk is at most the configured size, and smaller only if it ends the prompt or the budget. */
  ghost predicate FullChunk(cfg: Config, was: nat, s: Sequence, left: nat) {
    s.cursor > was ==>
      && s.cursor - was <= cfg.maxPrefillChunk
      && (s.cursor == |s.prompt| || s.cursor - was == cfg.maxPrefillChunk || left == 0)
  }

  lemma PrefillLoopFull(cfg: Config, w: Work, i: nat, j: nat)
    requires cfg.blockSize > 0 && Inv(cfg, w.st) && i <= j < |w.st.active|
    ensures var w' := PrefillLoop(cfg, w, i);
            |w'.st.active| == |w.st.active| && FullChunk(cfg, w.st.active[j].cursor, w'.st.active[j], w'.budget)
    decreases j - i
  {
    var w' := PrefillLoop(cfg, w, i);
    PrefillLoopLines(cfg, w, i);
    if w.budget > 0 {
      var w1 := PrefillOne(cfg, w, i);
      assert ActiveOk(cfg, w.st.pool, w.st.active[i]);
      PrefillOneLine(cfg, w, i);
      PrefillOneCorrect(cfg, w, i);
      PrefillLoopLines(cfg, w1, i + 1);
      if i < j {
        PrefillLoopFull(cfg, w1, i + 1, j);
      } else {
        PrefillOneFull(cfg, w, i);
        assert w'.st.active[i] == w'.st.active[..i + 1][i] == w1.st.active[i];
      }
    }
  }

  lemma PrefillOneFull(cfg: Config, w: Work, i: nat)
    requires cfg.blockSize > 0 && i < |w.st.active| && w.budget > 0
    requires w.st.active[i].cursor <= |w.st.active[i].prompt|
    ensures var w1 := PrefillOne(cfg, w, i);
            FullChunk(cfg, w.st.active[i].cursor, w1.st.active[i], w1.budget)
  {}

  lemma AdmitOneFull(cfg: Config, w: Work)
    requires cfg.blockSize > 0 && w.st.waiting != [] && w.budget > 0
    ensures var (w1, more) := AdmitOne(cfg, w);
            more ==> |w1.st.active| == |w.st.active| + 1
                     && FullChunk(cfg, w.st.waiting[0].cursor, w1.st.active[|w.st.active|], w1.budget)
  {}

  /** Admissions that follow neither touch an admitted sequence nor leave budget that was not left. */
  lemma AdmitLoopKeeps(cfg: Config, w: Work, was: nat, k: nat)
    requires cfg.blockSize > 0 && Inv(cfg, w.st) && k < |w.st.active|
    requires FullChunk(cfg, was, w.st.active[k], w.budget)
    ensures var w' := AdmitLoop(cfg, w);
            k < |w'.st.active| && FullChunk(cfg, was, w'.st.active[k], w'.budget)
  {
    var m := AdmitLoopLines(cfg, w);
    var w' := AdmitLoop(cfg, w);
    assert w'.st.active[k] == w'.st.active[..|w.st.active|][k] == w.st.active[k];
  }

  lemma {:induction false} AdmitLoopFull(cfg: Config, w: Work, j: nat)
    requires cfg.blockSize > 0 && Inv(cfg, w.st) && |w.st.active| <= j < |AdmitLoop(cfg, w).st.active|
    ensures j - |w.st.active| < |w.st.waiting|
    ensures var w' := AdmitLoop(cfg, w);
            FullChunk(cfg, w.st.waiting[j - |w.st.active|].cursor, w'.st.active[j], w'.budget)
    decreases |w.st.waiting|
  {
    if w.budget > 0 && w.st.waiting != [] {
      var (w1, more) := AdmitOne(cfg, w);
      assert WaitingOk(w.st.pool, w.st.waiting[0]);
      AdmitOneLine(cfg, w);
      AdmitOneCorrect(cfg, w);
      if more && j > |w.st.active| {
        AdmitLoopFull(cfg, w1, j);
      } else if more {
        AdmitOneFull(cfg, w);
        AdmitLoopKeeps(cfg, w1, w.st.waiting[0].cursor, j);
      }
    }
  }

  // ---------------------------------------------------------------------------------------
  // The whole iteration
  // ---------------------------------------------------------------------------------------

  lemma {:induction false} UnfinishedFrom(b: seq<Sequence>, i: nat) returns (j: nat)
    requires i < |Unfinished(b)|
    ensures j < |b| && b[j] == Unfinished(b)[i] && b[j].phase != Finished
  {
    if b[0].phase == Finished {
      j := UnfinishedFrom(b[1..], i);
      j := j + 1;
    } else if i == 0 {
      j := 0;
    } else {
      j := UnfinishedFrom(b[1..], i - 1);
      j := j + 1;
    }
  }

  lemma {:induction false} DoneFrom(b: seq<Sequence>, i: nat) returns (j: nat)
    requires i < |Done(b)|
    ensures j < |b| && b[j] == Done(b)[i] && b[j].phase == Finished
  {
    if b[0].phase != Finished {
      j := DoneFrom(b[1..], i);
      j := j + 1;
    } else if i == 0 {
      j := 0;
    } else {
      j := DoneFrom(b[1..], i - 1);
      j := j + 1;
    }
  }

  lemma {:induction false} InUnfinishedOrDone(b: seq<Sequence>, j: nat) returns (k: nat)
    requires j < |b|
    ensures if b[j].phase == Finished then k < |Done(b)| && Done(b)[k] == b[j]
            else k < |Unfinished(b)| && Unfinished(b)[k] == b[j]
  {
    if j == 0 {
      k := 0;
    } else {
      k := InUnfinishedOrDone(b[1..], j - 1);
      if b[0].phase == b[j].phase || (b[0].phase != Finished && b[j].phase != Finished) { k := k + 1; }
    }
  }

  /** The iteration as its three loops leave it. */
  datatype Stages = Stages(turned: seq<Sequence>, prefilled: seq<Sequence>, m: nat, admitted: seq<Sequence>)

  ghost predicate Staged(st: State, r: Work, g: Stages) {
    && AllDecoded(st.active, g.turned) && InPlace(Unfinished(g.turned), g.prefilled)
    && g.m <= |st.waiting| && InPlace(st.waiting[..g.m], g.admitted)
    && r.st.active == g.prefilled + g.admitted && r.st.finished == st.finished + Done(g.turned)
    && r.results == Gains(st.active, g.turned)
                    + Lines(Unfinished(g.turned) + st.waiting[..g.m], g.prefilled + g.admitted)
  }

  /** The chunk of the sequence at index `j`, as far as the budget went. */
  ghost predicate FullAt(cfg: Config, st: State, r: Work, g: Stages, j: nat)
    requires Staged(st, r, g)
  {
    j < |r.st.active| ==>
      FullChunk(cfg, (Unfinished(g.turned) + st.waiting[..g.m])[j].cursor, r.st.active[j], r.budget)
  }

  lemma StepStaged(cfg: Config, st: State) returns (g: Stages)
    requires cfg.blockSize > 0 && Inv(cfg, st)
    ensures Staged(st, Step(cfg, st), g)
    ensures forall j: nat :: FullAt(cfg, st, Step(cfg, st), g, j)
  {
    var w0 := Work(st, cfg.maxBatchTokens, [], false);
    var w1 := DecodeLoop(cfg, w0, 0);
    var w2 := PrefillLoop(cfg, w1, 0);
    var turned := DecodeLoopTurns(cfg, w0, 0);
    DecodeLoopCorrect(cfg, w0, 0);
    PrefillLoopLines(cfg, w1, 0);
    PrefillLoopCorrect(cfg, w1, 0);
    var m := AdmitLoopLines(cfg, w2);
    g := StagesFit(w0, w1, w2, Step(cfg, st), turned, m);
    forall j: nat ensures FullAt(cfg, st, Step(cfg, st), g, j) {
      if j < |Step(cfg, st).st.active| { StagesFull(cfg, st, w1, w2, g, j); }
    }
  }

  lemma StagesFull(cfg: Config, st: State, w1: Work, w2: Work, g: Stages, j: nat)
    requires cfg.blockSize > 0 && Inv(cfg, w1.st) && Inv(cfg, w2.st) && w2 == PrefillLoop(cfg, w1, 0)
    requires w1.st.active == Unfinished(g.turned) && |w1.st.active| == |w2.st.active| && w2.st.waiting == st.waiting
    requires Staged(st, AdmitLoop(cfg, w2), g) && j < |AdmitLoop(cfg, w2).st.active|
    ensures FullAt(cfg, st, AdmitLoop(cfg, w2), g, j)
  {
    var r, n := AdmitLoop(cfg, w2), |w2.st.active|;
    var m := AdmitLoopLines(cfg, w2);
    if j < n {
      PrefillLoopFull(cfg, w1, 0, j);
      AdmitLoopCorrect(cfg, w2);
      assert r.st.active[j] == r.st.active[..n][j] == w2.st.active[j];
    } else {
      AdmitLoopFull(cfg, w2, j);
      assert st.waiting[..g.m][j - n] == st.waiting[j - n];
    }
  }

  lemma StagesFit(w0: Work, w1: Work, w2: Work, w3: Work, turned: seq<Sequence>, m: nat) returns (g: Stages)
    requires w0.results == [] && DecodeTurns(w0, w1, 0, turned)
    requires |w2.st.active| == |w1.st.active| && InPlace(w1.st.active[0..], w2.st.active[0..])
    requires w2.results == w1.results + Lines(w1.st.active[0..], w2.st.active[0..])
    requires w2.st.waiting == w1.st.waiting && w2.st.finished == w1.st.finished == w3.st.finished
    requires m <= |w2.st.waiting| && |w3.st.active| == |w2.st.active| + m
    requires w3.st.active[..|w2.st.active|] == w2.st.active
    requires InPlace(w2.st.waiting[..m], w3.st.active[|w2.st.active|..])
    requires w3.results == w2.results + Lines(w2.st.waiting[..m], w3.st.active[|w2.st.active|..])
    ensures Staged(w0.st, w3, g) && g.turned == turned && w1.st.active == Unfinished(turned)
  {
    var n := |w2.st.active|;
    var admitted := w3.st.active[n..];
    g := Stages(turned, w2.st.active, m, admitted);
    assert w0.st.active[0..] == w0.st.active && w1.st.active[0..] == w1.st.active;
    assert w2.st.active[0..] == w2.st.active;
    assert w1.st.active == Unfinished(turned) by {
      assert w0.st.active[..0] + Unfinished(turned) == Unfinished(turned);
    }
    assert w3.st.active == w2.st.active + admitted;
    assert [] + Gains(w0.st.active, turned) == Gains(w0.st.active, turned);
    LinesSum(w1.st.active, w2.st.active, w0.st.waiting[..m], admitted);
    Regroup(w1.results, Lines(w1.st.active, w2.st.active), Lines(w0.st.waiting[..m], admitted));
  }

  /** Distinct live ids: equal ids are the same place. */
  lemma SameId(live: seq<Sequence>, i: nat, j: nat)
    requires Distinct(Ids(live)) && i < |live| && j < |live| && live[i].id == live[j].id
    ensures i == j
  {
    if i != j { DistinctAt(Ids(live), i, j); }
  }

  lemma PrefillPart(st: State, g: Stages, r: Work)
    requires Distinct(Ids(st.active + st.waiting)) && Staged(st, r, g)
    ensures Lines(Unfinished(g.turned) + st.waiting[..g.m], g.prefilled + g.admitted)
         == PrefillLines(st.active + st.waiting, r.st.active)
  {
    var live, a, b := st.active + st.waiting, Unfinished(g.turned) + st.waiting[..g.m], g.prefilled + g.admitted;
    forall i | 0 <= i < |a| ensures Advanced(a[i], b[i]) && FoundWithCursor(live, a[i]) {
      WasBefore(st, g, r, i);
    }
    LinesById(a, b, live);
  }

  /** The sequence at index `i` of the active set after the iteration, as it was before. */
  lemma WasBefore(st: State, g: Stages, r: Work, i: nat)
    requires Distinct(Ids(st.active + st.waiting)) && Staged(st, r, g) && i < |r.st.active|
    ensures var s := (Unfinished(g.turned) + st.waiting[..g.m])[i];
            Advanced(s, r.st.active[i]) && FoundWithCursor(st.active + st.waiting, s)
  {
    var live, n := st.active + st.waiting, |Unfinished(g.turned)|;
    if i < n {
      assert Advanced(Unfinished(g.turned)[i], g.prefilled[i]);
      var j := UnfinishedFrom(g.turned, i);
      assert Decoded(st.active[j], g.turned[j]);
      FindAt(live, j);
    } else {
      assert Advanced(st.waiting[..g.m][i - n], g.admitted[i - n]);
      FindAt(live, |st.active| + i - n);
    }
  }

  /** What a sequence that was turned looks like after the iteration. */
  ghost predicate Agrees(b: Sequence, x: Sequence) {
    x.generated == b.generated && (b.phase != Prefill ==> x.phase == b.phase)
  }

  lemma {:induction false} FindSome(ss: seq<Sequence>, id: nat, k: nat)
    requires k < |ss| && ss[k].id == id
    ensures Find(ss, id).Some? && Find(ss, id).value in ss && Find(ss, id).value.id == id
  {
    if ss[0].id != id { FindSome(ss[1..], id, k - 1); }
  }

  lemma AfterAgrees(st: State, g: Stages, r: Work, j: nat, x: Sequence)
    requires Distinct(Ids(st.active + st.waiting)) && Staged(st, r, g) && j < |st.active|
    requires x in r.st.active + Done(g.turned) && x.id == g.turned[j].id
    ensures Agrees(g.turned[j], x)
  {
    var live := st.active + st.waiting;
    var n := |g.prefilled|;
    assert Decoded(st.active[j], g.turned[j]);
    if x in Done(g.turned) {
      var i :| 0 <= i < |Done(g.turned)| && Done(g.turned)[i] == x;
      var j' := DoneFrom(g.turned, i);
      assert Decoded(st.active[j'], g.turned[j']);
      SameId(live, j, j');
    } else {
      var i :| 0 <= i < |r.st.active| && r.st.active[i] == x;
      if i < n {
        assert Advanced(Unfinished(g.turned)[i], g.prefilled[i]);
        var j' := UnfinishedFrom(g.turned, i);
        assert Decoded(st.active[j'], g.turned[j']);
        SameId(live, j, j');
      } else {
        assert Advanced(st.waiting[..g.m][i - n], g.admitted[i - n]);
        SameId(live, j, |st.active| + i - n);
        assert false;
      }
    }
  }

  lemma TurnedIsThere(st: State, g: Stages, r: Work, j: nat) returns (k: nat)
    requires Staged(st, r, g) && j < |st.active|
    ensures var after := r.st.active + Done(g.turned); k < |after| && after[k].id == g.turned[j].id
  {
    var i := InUnfinishedOrDone(g.turned, j);
    if g.turned[j].phase == Finished {
      k := |r.st.active| + i;
    } else {
      assert Advanced(Unfinished(g.turned)[i], g.prefilled[i]);
      k := i;
    }
  }

  lemma GainIsLine(st: State, g: Stages, r: Work, j: nat)
    requires Distinct(Ids(st.active + st.waiting)) && Staged(st, r, g) && j < |st.active|
    ensures Gain(st.active[j], g.turned[j]) == DecodeLine(st.active[j], r.st.active + Done(g.turned))
  {
    var after := r.st.active + Done(g.turned);
    var k := TurnedIsThere(st, g, r, j);
    assert Decoded(st.active[j], g.turned[j]);
    FindSome(after, g.turned[j].id, k);
    AfterAgrees(st, g, r, j, Find(after, g.turned[j].id).value);
  }

  lemma {:induction false} GainsAreLines(a: seq<Sequence>, b: seq<Sequence>, after: seq<Sequence>)
    requires |a| == |b| && forall j :: 0 <= j < |a| ==> Gain(a[j], b[j]) == DecodeLine(a[j], after)
    ensures Gains(a, b) == DecodeLines(a, after)
  {
    if a != [] { GainsAreLines(a[1..], b[1..], after); }
  }

  /** The results of an iteration, whatever was refused: first, in order, a line for each sequence that
      was active and generated a token; then, in order, a line for each sequence that is active and
      whose cursor rose. Each line gives the exact number of tokens and the phase the sequence is in
      after the iteration. */
  lemma StepReport(cfg: Config, st: State)
    requires cfg.blockSize > 0 && Inv(cfg, st)
    ensures var st' := Step(cfg, st).st;
            && |st.finished| <= |st'.finished|
            && Step(cfg, st).results
               == DecodeLines(st.active, st'.active + st'.finished[|st.finished|..])
                  + PrefillLines(st.active + st.waiting, st'.active)
  {
    var r := Step(cfg, st);
    var g := StepStaged(cfg, st);
    assert Ids(st.active + st.waiting) == LiveIds(st);
    assert r.st.finished[|st.finished|..] == Done(g.turned);
    PrefillPart(st, g, r);
    forall j | 0 <= j < |st.active|
      ensures Gain(st.active[j], g.turned[j]) == DecodeLine(st.active[j], r.st.active + Done(g.turned))
    {
      GainIsLine(st, g, r, j);
    }
    GainsAreLines(st.active, g.turned, r.st.active + Done(g.turned));
  }

  /** Each active sequence's chunk of the iteration: at most the configured size, and smaller only if it
      ends the prompt or the budget is spent. */
  lemma StepChunks(cfg: Config, st: State, j: nat)
    requires cfg.blockSize > 0 && Inv(cfg, st) && j < |Step(cfg, st).st.active|
    ensures var r, s := Step(cfg, st), Step(cfg, st).st.active[j];
            var was := Find(st.active + st.waiting, s.id);
            && was.Some? && TokensIn(r.results) <= cfg.maxBatchTokens
            && FullChunk(cfg, was.value.cursor, s, cfg.maxBatchTokens - TokensIn(r.results))
  {
    var r := Step(cfg, st);
    BudgetLeft(cfg, st);
    var g := StepStaged(cfg, st);
    assert Ids(st.active + st.waiting) == LiveIds(st);
    WasBefore(st, g, r, j);
    assert FullAt(cfg, st, r, g, j);
  }

  lemma BudgetLeft(cfg: Config, st: State)
    requires cfg.blockSize > 0 && Inv(cfg, st)
    ensures Step(cfg, st).budget + TokensIn(Step(cfg, st).results) == cfg.maxBatchTokens
  {
    var w0 := Work(st, cfg.maxBatchTokens, [], false);
    DecodeLoopCorrect(cfg, w0, 0);
    PrefillLoopCorrect(cfg, DecodeLoop(cfg, w0, 0), 0);
    AdmitLoopCorrect(cfg, PrefillLoop(cfg, DecodeLoop(cfg, w0, 0), 0));
  }
}
