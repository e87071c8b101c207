/** The history of a run with pairwise different ids: every admitted sequence is in exactly one of
    finished, active and waiting, the live ones keep admission order, and telemetry records exactly
    one time-to-first-token and one inter-token sample per further token. */
module SchedulerHistory {
  import opened Counting
  import opened PageTable
  import opened Sequences
  import opened Metrics
  import opened SchedulerSpec
  import opened SchedulerInvariants
  import opened SchedulerRuns

  function Without(ids: seq<nat>, gone: seq<nat>): seq<nat> {
    if ids == [] then []
    else (if ids[0] in gone then [] else [ids[0]]) + Without(ids[1..], gone)
  }

  function Samples(log: seq<Recorded>, id: nat, kind: MetricKind): nat {
    if log == [] then 0
    else Samples(log[..|log| - 1], id, kind) + (if log[|log| - 1] == Recorded(id, kind) then 1 else 0)
  }

  /** One sample of the first kind for the first generated token, one of the second for each other. */
  ghost predicate Counted(log: seq<Recorded>, s: Sequence) {
    && Samples(log, s.id, TTFT) == (if s.generated == [] then 0 else 1)
    && Samples(log, s.id, InterToken) == (if s.generated == [] then 0 else |s.generated| - 1)
  }

  ghost predicate AllCounted(log: seq<Recorded>, ss: seq<Sequence>) {
    forall i :: 0 <= i < |ss| ==> Counted(log, ss[i])
  }

  /** Telemetry says nothing about ids that never arrived. */
  ghost predicate KnownOrUnseen(log: seq<Recorded>, admitted: seq<nat>, id: nat) {
    id in admitted || (Samples(log, id, TTFT) == 0 && Samples(log, id, InterToken) == 0)
  }

  /** `admitted` lists the ids in order of arrival; the live ones are what finishing left of it. */
  ghost predicate Order(st: State, admitted: seq<nat>) {
    && Distinct(admitted)
    && LiveIds(st) == Without(admitted, Ids(st.finished))
    && Distinct(Ids(st.finished))
    && (forall i :: 0 <= i < |st.finished| ==> st.finished[i].id in admitted)
  }

  ghost predicate Tally(st: State, admitted: seq<nat>) {
    && AllCounted(st.log, st.active) && AllCounted(st.log, st.waiting) && AllCounted(st.log, st.finished)
    && (forall id :: KnownOrUnseen(st.log, admitted, id))
  }

  ghost predicate History(st: State, admitted: seq<nat>) {
    Order(st, admitted) && Tally(st, admitted)
  }

  // ---------------------------------------------------------------------------------------
  // Filtering
  // ---------------------------------------------------------------------------------------

  lemma {:induction false} WithoutMembers(ids: seq<nat>, gone: seq<nat>, id: nat)
    ensures id in Without(ids, gone) <==> id in ids && id !in gone
  {
    if ids != [] {
      WithoutMembers(ids[1..], gone, id);
      assert id in ids <==> id == ids[0] || id in ids[1..];
      var head := if ids[0] in gone then [] else [ids[0]];
      assert id in head + Without(ids[1..], gone) <==> id in head || id in Without(ids[1..], gone);
    }
  }

  lemma {:induction false} WithoutAppend(ids: seq<nat>, id: nat, gone: seq<nat>)
    ensures Without(ids + [id], gone) == Without(ids, gone) + if id in gone then [] else [id]
  {
    if ids == [] {
      assert ids + [id] == [id] && [id][1..] == [];
    } else {
      WithoutAppend(ids[1..], id, gone);
      assert (ids + [id])[1..] == ids[1..] + [id];
    }
  }

  /** One more id gone: it disappears from wherever it stood. */
  lemma {:induction false} WithoutOneMore(ids: seq<nat>, gone: seq<nat>, i: nat)
    requires Distinct(Without(ids, gone)) && i < |Without(ids, gone)|
    ensures var live := Without(ids, gone);
            Without(ids, gone + [live[i]]) == live[..i] + live[i + 1..]
  {
    var live := Without(ids, gone);
    var id := live[i];
    var rest := Without(ids[1..], gone);
    if ids[0] in gone {
      assert live == rest;
      WithoutOneMore(ids[1..], gone, i);
      assert ids[0] in gone + [id];
    } else {
      assert live == [ids[0]] + rest;
      assert live[1..] == rest;
      if i == 0 {
        WithoutSame(ids[1..], gone, id);
        assert ids[0] in gone + [id];
        assert live[..0] + live[1..] == rest;
      } else {
        WithoutOneMore(ids[1..], gone, i - 1);
        assert id == rest[i - 1];
        DistinctAt(live, 0, i);
        assert ids[0] !in gone + [id];
        Shift(ids[0], rest, i);
      }
    }
  }

  lemma Shift(x: nat, rest: seq<nat>, i: nat)
    requires 0 < i <= |rest|
    ensures var live := [x] + rest; live[..i] + live[i + 1..] == [x] + (rest[..i - 1] + rest[i..])
  {}

  lemma {:induction false} WithoutSame(ids: seq<nat>, gone: seq<nat>, id: nat)
    requires id !in Without(ids, gone)
    ensures Without(ids, gone + [id]) == Without(ids, gone)
  {
    if ids != [] {
      var head := if ids[0] in gone then [] else [ids[0]];
      assert forall x :: x in Without(ids[1..], gone) ==> x in head + Without(ids[1..], gone);
      assert ids[0] !in gone ==> (head + Without(ids[1..], gone))[0] == ids[0];
      WithoutSame(ids[1..], gone, id);
      assert ids[0] in gone + [id] <==> ids[0] in gone || ids[0] == id;
    }
  }

  // ---------------------------------------------------------------------------------------
  // Steps
  // ---------------------------------------------------------------------------------------

  lemma LogAppend(log: seq<Recorded>, x: Recorded)
    ensures forall id, kind ::
              Samples(log + [x], id, kind) == Samples(log, id, kind) + (if x == Recorded(id, kind) then 1 else 0)
  {
    assert (log + [x])[..|log|] == log;
  }

  /** A live sequence and a finished one have different ids, and so have two live ones. */
  lemma LiveApart(cfg: Config, st: State, admitted: seq<nat>, i: nat)
    requires cfg.blockSize > 0 && Inv(cfg, st) && Order(st, admitted) && i < |st.active|
    ensures forall j :: 0 <= j < |st.active| && j != i ==> st.active[j].id != st.active[i].id
    ensures forall j :: 0 <= j < |st.waiting| ==> st.waiting[j].id != st.active[i].id
    ensures forall j :: 0 <= j < |st.finished| ==> st.finished[j].id != st.active[i].id
    ensures st.active[i].id in admitted && st.active[i].id !in Ids(st.finished)
  {
    var ids, id := LiveIds(st), st.active[i].id;
    assert ids[i] == id;
    forall j | 0 <= j < |st.active| && j != i ensures st.active[j].id != id {
      DistinctAt(ids, i, j);
      assert ids[j] == st.active[j].id;
    }
    forall j | 0 <= j < |st.waiting| ensures st.waiting[j].id != id {
      DistinctAt(ids, i, |st.active| + j);
      assert ids[|st.active| + j] == st.waiting[j].id;
    }
    WithoutMembers(admitted, Ids(st.finished), id);
    forall j | 0 <= j < |st.finished| ensures st.finished[j].id != id {
      assert Ids(st.finished)[j] == st.finished[j].id;
    }
  }

  /** One more sample for the active sequence `i`: its count goes up, the others' are unaffected. */
  lemma TallySample(cfg: Config, st: State, admitted: seq<nat>, i: nat, log: seq<Recorded>)
    requires cfg.blockSize > 0 && Inv(cfg, st) && History(st, admitted) && i < |st.active|
    requires var s := st.active[i]; log == st.log + [Recorded(s.id, if s.generated == [] then TTFT else InterToken)]
    ensures Counted(log, st.active[i].(generated := st.active[i].generated + [PLACEHOLDER]))
    ensures forall j :: 0 <= j < |st.active| && j != i ==> Counted(log, st.active[j])
    ensures AllCounted(log, st.waiting) && AllCounted(log, st.finished)
    ensures forall id :: KnownOrUnseen(log, admitted, id)
  {
    var s := st.active[i];
    LogAppend(st.log, Recorded(s.id, if s.generated == [] then TTFT else InterToken));
    LiveApart(cfg, st, admitted, i);
    assert Counted(st.log, s);
    forall j | 0 <= j < |st.active| && j != i ensures Counted(log, st.active[j]) {
      assert Counted(st.log, st.active[j]);
    }
    forall j | 0 <= j < |st.waiting| ensures Counted(log, st.waiting[j]) { assert Counted(st.log, st.waiting[j]); }
    forall j | 0 <= j < |st.finished| ensures Counted(log, st.finished[j]) { assert Counted(st.log, st.finished[j]); }
    forall id ensures KnownOrUnseen(log, admitted, id) { assert KnownOrUnseen(st.log, admitted, id); }
  }

  /** The order of arrival when the active sequence `i` finishes. */
  lemma OrderFinish(cfg: Config, st: State, admitted: seq<nat>, i: nat, st': State)
    requires cfg.blockSize > 0 && Inv(cfg, st) && Order(st, admitted) && i < |st.active|
    requires st'.active == st.active[..i] + st.active[i + 1..] && st'.waiting == st.waiting
    requires |st'.finished| == |st.finished| + 1 && st'.finished[..|st.finished|] == st.finished
    requires st'.finished[|st.finished|].id == st.active[i].id
    ensures Order(st', admitted)
  {
    var ids := LiveIds(st);
    LiveApart(cfg, st, admitted, i);
    WithoutOneMore(admitted, Ids(st.finished), i);
    IdsFinish(st, i, st');
    DistinctAppend(Ids(st.finished), ids[i]);
    forall j | 0 <= j < |st'.finished| ensures st'.finished[j].id in admitted {
      if j < |st.finished| { assert st'.finished[j] == st.finished[j]; }
    }
  }

  lemma IdsFinish(st: State, i: nat, st': State)
    requires i < |st.active|
    requires st'.active == st.active[..i] + st.active[i + 1..] && st'.waiting == st.waiting
    requires |st'.finished| == |st.finished| + 1 && st'.finished[..|st.finished|] == st.finished
    requires st'.finished[|st.finished|].id == st.active[i].id
    ensures LiveIds(st)[i] == st.active[i].id && Ids(st'.finished) == Ids(st.finished) + [st.active[i].id]
    ensures LiveIds(st') == LiveIds(st)[..i] + LiveIds(st)[i + 1..]
  {
    forall j | 0 <= j < |st.finished| ensures st'.finished[j] == st.finished[j] {
      assert st'.finished[..|st.finished|][j] == st.finished[j];
    }
  }

  /** The decode step of sequence `i` that does not finish it. */
  lemma DecodeKeepsHistory(cfg: Config, st: State, admitted: seq<nat>, i: nat, st': State)
    requires cfg.blockSize > 0 && Inv(cfg, st) && History(st, admitted) && i < |st.active|
    requires var s := st.active[i];
             && st'.log == st.log + [Recorded(s.id, if s.generated == [] then TTFT else InterToken)]
             && st'.active == st.active[i := s.(generated := s.generated + [PLACEHOLDER])]
    requires st'.waiting == st.waiting && st'.finished == st.finished
    ensures History(st', admitted)
  {
    TallySample(cfg, st, admitted, i, st'.log);
    assert LiveIds(st') == LiveIds(st);
  }

  /** The decode step of sequence `i` that finishes it. */
  lemma DecodeFinishesHistory(cfg: Config, st: State, admitted: seq<nat>, i: nat, st': State)
    requires cfg.blockSize > 0 && Inv(cfg, st) && History(st, admitted) && i < |st.active|
    requires var s := st.active[i];
             && st'.log == st.log + [Recorded(s.id, if s.generated == [] then TTFT else InterToken)]
             && st'.active == st.active[..i] + st.active[i + 1..]
             && st'.finished == st.finished + [s.(generated := s.generated + [PLACEHOLDER], phase := Finished)]
    requires st'.waiting == st.waiting
    ensures History(st', admitted)
  {
    TallySample(cfg, st, admitted, i, st'.log);
    OrderFinish(cfg, st, admitted, i, st');
    forall j | 0 <= j < |st'.active| ensures Counted(st'.log, st'.active[j]) {
      assert st'.active[j] == st.active[if j < i then j else j + 1];
    }
    forall j | 0 <= j < |st'.finished| ensures Counted(st'.log, st'.finished[j]) {
      if j < |st.finished| { assert st'.finished[j] == st.finished[j]; }
    }
  }

  lemma DecodeOneHistory(cfg: Config, w: Work, i: nat, admitted: seq<nat>)
    requires cfg.blockSize > 0 && Inv(cfg, w.st) && History(w.st, admitted) && i < |w.st.active| && w.budget > 0
    ensures History(DecodeOne(cfg, w, i).0.st, admitted)
  {
    var s, st' := w.st.active[i], DecodeOne(cfg, w, i).0.st;
    if s.phase == Decode && EnsureCapacity(w.st.pool, s.id, s.TotalTokens() + 1, cfg.blockSize).ok {
      if |s.generated| + 1 >= s.maxNew {
        DecodeFinishesHistory(cfg, w.st, admitted, i, st');
      } else {
        DecodeKeepsHistory(cfg, w.st, admitted, i, st');
      }
    } else {
      assert LiveIds(st') == LiveIds(w.st);
    }
  }

  lemma {:induction false} DecodeLoopHistory(cfg: Config, w: Work, i: nat, admitted: seq<nat>)
    requires cfg.blockSize > 0 && Inv(cfg, w.st) && History(w.st, admitted)
    ensures History(DecodeLoop(cfg, w, i).st, admitted)
    decreases |w.st.active| - i
  {
    if i < |w.st.active| && w.budget > 0 {
      var (w', i') := DecodeOne(cfg, w, i);
      DecodeOneInv(cfg, w, i);
      DecodeOneHistory(cfg, w, i, admitted);
      DecodeLoopHistory(cfg, w', i', admitted);
    }
  }

  lemma PrefillOneHistory(cfg: Config, w: Work, i: nat, admitted: seq<nat>)
    requires cfg.blockSize > 0 && History(w.st, admitted) && i < |w.st.active| && w.budget > 0
    ensures History(PrefillOne(cfg, w, i).st, admitted)
  {
    var w' := PrefillOne(cfg, w, i);
    assert Counted(w.st.log, w.st.active[i]);
    assert LiveIds(w'.st) == LiveIds(w.st);
  }

  lemma {:induction false} PrefillLoopHistory(cfg: Config, w: Work, i: nat, admitted: seq<nat>)
    requires cfg.blockSize > 0 && History(w.st, admitted)
    ensures History(PrefillLoop(cfg, w, i).st, admitted)
    decreases |w.st.active| - i
  {
    if i < |w.st.active| && w.budget > 0 {
      PrefillOneHistory(cfg, w, i, admitted);
      PrefillLoopHistory(cfg, PrefillOne(cfg, w, i), i + 1, admitted);
    }
  }

  lemma AdmitOneHistory(cfg: Config, w: Work, admitted: seq<nat>)
    requires cfg.blockSize > 0 && History(w.st, admitted) && w.st.waiting != [] && w.budget > 0
    ensures History(AdmitOne(cfg, w).0.st, admitted)
  {
    var (w', more) := AdmitOne(cfg, w);
    assert Counted(w.st.log, w.st.waiting[0]);
    assert LiveIds(w'.st) == LiveIds(w.st);
    assert more ==> forall j :: 0 <= j < |w'.st.waiting| ==> w'.st.waiting[j] == w.st.waiting[j + 1];
  }

  lemma {:induction false} AdmitLoopHistory(cfg: Config, w: Work, admitted: seq<nat>)
    requires cfg.blockSize > 0 && History(w.st, admitted)
    ensures History(AdmitLoop(cfg, w).st, admitted)
    decreases |w.st.waiting|
  {
    if w.budget > 0 && w.st.waiting != [] {
      var (w', more) := AdmitOne(cfg, w);
      AdmitOneHistory(cfg, w, admitted);
      if more { AdmitLoopHistory(cfg, w', admitted); }
    }
  }

  lemma StepHistory(cfg: Config, st: State, admitted: seq<nat>)
    requires cfg.blockSize > 0 && Inv(cfg, st) && History(st, admitted)
    ensures History(Step(cfg, st).st, admitted)
  {
    var w0 := Work(st, cfg.maxBatchTokens, [], false);
    DecodeLoopHistory(cfg, w0, 0, admitted);
    PrefillLoopHistory(cfg, DecodeLoop(cfg, w0, 0), 0, admitted);
    AdmitLoopHistory(cfg, PrefillLoop(cfg, DecodeLoop(cfg, w0, 0), 0), admitted);
  }

  // ---------------------------------------------------------------------------------------
  // Runs
  // ---------------------------------------------------------------------------------------

  function Arrivals(events: seq<Event>): seq<nat> {
    if events == [] then []
    else Arrivals(events[..|events| - 1])
         + match events[|events| - 1] { case Arrive(s) => [s.id] case Iterate => [] }
  }

  lemma ArriveHistory(st: State, admitted: seq<nat>, s: Sequence)
    requires History(st, admitted) && s.id !in admitted && Fresh(s)
    ensures History(Admit(st, s), admitted + [s.id])
  {
    var st', ids := Admit(st, s), admitted + [s.id];
    DistinctAppend(admitted, s.id);
    WithoutAppend(admitted, s.id, Ids(st.finished));
    assert s.id !in Ids(st.finished);
    assert LiveIds(st') == LiveIds(st) + [s.id];
    assert KnownOrUnseen(st.log, admitted, s.id);
    forall id ensures KnownOrUnseen(st'.log, ids, id) { assert KnownOrUnseen(st.log, admitted, id); }
  }

  lemma {:induction false} DistinctPrefix(ids: seq<nat>, more: seq<nat>)
    requires Distinct(ids + more)
    ensures Distinct(ids)
    ensures forall id :: id in more ==> id !in ids
  {
    if ids != [] {
      assert (ids + more)[1..] == ids[1..] + more;
      DistinctPrefix(ids[1..], more);
      assert forall id :: id in ids[1..] ==> id in ids[1..] + more;
    }
  }

  /** The history invariant holds after every run whose arrivals have pairwise different ids. */
  lemma {:induction false} RunHistory(cfg: Config, events: seq<Event>)
    requires cfg.blockSize > 0 && ValidRun(cfg, events) && Distinct(Arrivals(events))
    ensures History(Play(cfg, events), Arrivals(events))
  {
    if events == [] {
      assert LiveIds(Initial(cfg)) == [];
    } else {
      var before := events[..|events| - 1];
      match events[|events| - 1]
      case Arrive(s) =>
        DistinctPrefix(Arrivals(before), [s.id]);
        RunHistory(cfg, before);
        ArriveHistory(Play(cfg, before), Arrivals(before), s);
      case Iterate =>
        assert Arrivals(events) == Arrivals(before);
        RunHistory(cfg, before);
        RunInv(cfg, before);
        StepHistory(cfg, Play(cfg, before), Arrivals(before));
    }
  }

  /** Every arrived id is finished or live, never both, and every finished sequence recorded one
      time-to-first-token and one inter-token sample for each of its other tokens. */
  lemma RunAccountsForEverySequence(cfg: Config, events: seq<Event>)
    requires cfg.blockSize > 0 && ValidRun(cfg, events) && Distinct(Arrivals(events))
    ensures var st := Play(cfg, events);
            && (forall id :: id in Arrivals(events) <==> (id in Ids(st.finished) || id in LiveIds(st)))
            && (forall id :: !(id in Ids(st.finished) && id in LiveIds(st)))
            && (forall s :: s in st.finished ==>
                  && |s.generated| == s.Target() == (if s.maxNew == 0 then 1 else s.maxNew)
                  && Samples(st.log, s.id, TTFT) == 1
                  && Samples(st.log, s.id, InterToken) == s.Target() - 1)
  {
    RunHistory(cfg, events);
    RunInv(cfg, events);
    var st, admitted := Play(cfg, events), Arrivals(events);
    forall id ensures id in admitted <==> (id in Ids(st.finished) || id in LiveIds(st))
      ensures !(id in Ids(st.finished) && id in LiveIds(st))
    {
      WithoutMembers(admitted, Ids(st.finished), id);
      if id in Ids(st.finished) {
        var i :| 0 <= i < |st.finished| && Ids(st.finished)[i] == id;
        assert st.finished[i].id in admitted;
      }
    }
    forall s | s in st.finished
      ensures |s.generated| == s.Target() && Samples(st.log, s.id, TTFT) == 1
              && Samples(st.log, s.id, InterToken) == s.Target() - 1
    {
      var i :| 0 <= i < |st.finished| && st.finished[i] == s;
      assert FinishedOk(st.finished[i]) && Counted(st.log, st.finished[i]);
    }
  }
}
