/** A concrete run that shows the one gap in query replies: a cache entry behind a held batch is skipped. */
module PipelineExample {
  import opened Points
  import opened PipelineModel
  import opened PipelineInvariant

  const FIRST := Ref(0, "m")
  const SECOND := Ref(1, "m")
  const POINTS1 := [Point(1, 10)]
  const POINTS2 := [Point(2, 20)]
  const SMALL := System(m => 0, 100, 10)

  /** A state with no persister and an empty tracker. */
  function Small(heap: Heap, nextId: nat, input: seq<Ref>, data: map<Metric, Ref>, held: Option<Ref>, pc: CachePc,
                 accepted: seq<Message>): State {
    State(heap, nextId, input, data, [], held, pc, [], map[], None,
          [], [], [], NO_PERSISTER, accepted, 0, [], [], [], [])
  }

  lemma Extend(run: seq<State>, acts: seq<Action>, a: Action, t: State)
    requires IsRun(SMALL, run, acts)
    requires Enabled(SMALL, run[|acts|], a) && t == Apply(SMALL, run[|acts|], a)
    ensures IsRun(SMALL, run + [t], acts + [a])
  {
    var longer := acts + [a];
    forall i {:trigger longer[i]} | 0 <= i < |longer|
      ensures Enabled(SMALL, (run + [t])[i], longer[i]) && (run + [t])[i + 1] == Apply(SMALL, (run + [t])[i], longer[i])
    {
      if i < |acts| { assert acts[i] == longer[i]; }
    }
  }

  lemma FirstMessageSent() returns (run: seq<State>, acts: seq<Action>)
    ensures IsRun(SMALL, run, acts) && |acts| == 2
    ensures run[2] == Small(map[FIRST := POINTS1], 1, [FIRST], map[], None, Select, [])
  {
    var h := map[FIRST := POINTS1];
    run, acts := [Small(map[], 0, [], map[], None, Head, [])], [];
    var s1 := Small(h, 1, [FIRST], map[], None, Head, []);
    Extend(run, acts, ASend("m", POINTS1), s1);
    run, acts := run + [s1], acts + [ASend("m", POINTS1)];
    var s2 := s1.(pc := Select);
    assert IsRebuild([], s1.data);
    Extend(run, acts, AHead([]), s2);
    run, acts := run + [s2], acts + [AHead([])];
  }

  lemma FirstBatchHeld() returns (run: seq<State>, acts: seq<Action>)
    ensures IsRun(SMALL, run, acts) && |acts| == 4
    ensures run[4] == Small(map[FIRST := POINTS1], 1, [], map[], Some(FIRST), Select, [Message("m", POINTS1)])
  {
    var h := map[FIRST := POINTS1];
    var log := [Message("m", POINTS1)];
    run, acts := FirstMessageSent();
    var s3 := Small(h, 1, [], map["m" := FIRST], None, Head, log);
    Extend(run, acts, AReceive(true), s3);
    run, acts := run + [s3], acts + [AReceive(true)];
    var s4 := Small(h, 1, [], map[], Some(FIRST), Select, log);
    assert IsRebuild([FIRST], s3.data) && s3.data - {"m"} == map[];
    assert PopFrom(s3.(pc := Select), [FIRST]) == s4;
    Extend(run, acts, AHead([FIRST]), s4);
    run, acts := run + [s4], acts + [AHead([FIRST])];
  }

  const POINTS_BOTH: Heap := map[FIRST := POINTS1, SECOND := POINTS2]
  const LOG_BOTH := [Message("m", POINTS1), Message("m", POINTS2)]

  lemma SecondSent() returns (run: seq<State>, acts: seq<Action>)
    ensures IsRun(SMALL, run, acts) && |acts| == 5
    ensures run[5] == Small(POINTS_BOTH, 2, [SECOND], map[], Some(FIRST), Select, [Message("m", POINTS1)])
  {
    run, acts := FirstBatchHeld();
    var s5 := Small(POINTS_BOTH, 2, [SECOND], map[], Some(FIRST), Select, [Message("m", POINTS1)]);
    Extend(run, acts, ASend("m", POINTS2), s5);
    run, acts := run + [s5], acts + [ASend("m", POINTS2)];
  }

  lemma SecondInCache() returns (run: seq<State>, acts: seq<Action>)
    ensures IsRun(SMALL, run, acts) && |acts| == 7
    ensures run[7] == Small(POINTS_BOTH, 2, [], map["m" := SECOND], Some(FIRST), Select, LOG_BOTH)
  {
    run, acts := SecondSent();
    var s6 := Small(POINTS_BOTH, 2, [], map["m" := SECOND], Some(FIRST), Head, LOG_BOTH);
    Extend(run, acts, AReceive(true), s6);
    run, acts := run + [s6], acts + [AReceive(true)];
    var s7 := s6.(pc := Select);
    assert IsRebuild([SECOND], s6.data);
    Extend(run, acts, AHead([SECOND]), s7);
    run, acts := run + [s7], acts + [AHead([SECOND])];
  }

  lemma AccBoth()
    ensures Acc(LOG_BOTH, "m") == [Point(1, 10), Point(2, 20)]
  {
    AccAppend([], Message("m", POINTS1), "m");
    AccAppend([Message("m", POINTS1)], Message("m", POINTS2), "m");
    assert LOG_BOTH == ([] + [Message("m", POINTS1)]) + [Message("m", POINTS2)];
  }

  const TAKEN := Taken(Query(0, "m"), Alias(FIRST), 2, 0, POINTS2)

  /** The cache worker takes a query while it holds the first batch, and passes it on. */
  lemma QueryForwarded() returns (run: seq<State>, acts: seq<Action>)
    ensures IsRun(SMALL, run, acts) && |acts| == 10
    ensures run[10] ==
            Small(POINTS_BOTH, 2, [], map["m" := SECOND], Some(FIRST), Head, LOG_BOTH).(asked := 1, taken := [TAKEN])
  {
    run, acts := SecondInCache();
    var s8 := run[7].(queries := [Query(0, "m")], asked := 1);
    Extend(run, acts, AAsk("m"), s8);
    run, acts := run + [s8], acts + [AAsk("m")];
    var s9 := s8.(queries := [], pc := Forward(TAKEN));
    assert Handed(s8, "m") == [];
    Extend(run, acts, ATakeQuery, s9);
    run, acts := run + [s9], acts + [ATakeQuery];
    var s10 := s9.(taken := [TAKEN], pc := Head);
    Extend(run, acts, AForwardQuery, s10);
    run, acts := run + [s10], acts + [AForwardQuery];
  }

  /** A run in which the reply misses a point accepted before the query was taken. */
  lemma ReplyCanMissAPoint() returns (run: seq<State>, acts: seq<Action>)
    ensures IsRun(SMALL, run, acts) && |acts| == 10 && Enabled(SMALL, run[10], AAnswer)
    ensures var s := run[10];
            && s.confirmed == [] && s.taken != []
            && s.taken[0].accLen == |s.accepted|
            && Acc(s.accepted, "m") == [Point(1, 10), Point(2, 20)]
            && var reply := ReplyTo(s, s.taken[0]);
            Pts(s.heap, reply.inFlight) + CachePts(s.heap, reply.cacheData) == [Point(1, 10)]
  {
    run, acts := QueryForwarded();
    AccBoth();
  }

  /** The first batch goes to the tracker and on. */
  lemma FirstHandedOff() returns (run: seq<State>, acts: seq<Action>)
    ensures IsRun(SMALL, run, acts) && |acts| == 13
    ensures run[13] == Small(POINTS_BOTH, 2, [], map["m" := SECOND], None, Head, LOG_BOTH).(
                         asked := 1, taken := [TAKEN], inflight := map["m" := [FIRST]], out := [FIRST])
  {
    run, acts := QueryForwarded();
    var s11 := run[10].(pc := Select);
    assert IsRebuild([SECOND], run[10].data);
    Extend(run, acts, AHead([SECOND]), s11);
    run, acts := run + [s11], acts + [AHead([SECOND])];
    var s12 := s11.(held := None, pc := Head, pending := Some(FIRST), inflight := map["m" := [FIRST]]);
    assert InflightOf(s11, "m") + [FIRST] == [FIRST];
    Extend(run, acts, AHandOff, s12);
    run, acts := run + [s12], acts + [AHandOff];
    var s13 := s12.(out := [FIRST], pending := None);
    Extend(run, acts, AEmit, s13);
    run, acts := run + [s13], acts + [AEmit];
  }

  /** The second batch is popped and follows. */
  lemma BothHandedOff() returns (run: seq<State>, acts: seq<Action>)
    ensures IsRun(SMALL, run, acts) && |acts| == 15
    ensures run[15].taken == [TAKEN] && InflightOf(run[15], "m") == [FIRST, SECOND]
  {
    run, acts := FirstHandedOff();
    var s14 := run[13].(data := map[], held := Some(SECOND), pc := Select);
    assert IsRebuild([SECOND], run[13].data);
    assert run[13].data - {"m"} == map[] && PopFrom(run[13], [SECOND]).(pc := Select) == s14;
    Extend(run, acts, AHead([SECOND]), s14);
    run, acts := run + [s14], acts + [AHead([SECOND])];
    assert InflightOf(s14, "m") + [SECOND] == [FIRST, SECOND];
    Extend(run, acts, AHandOff, HandOff(s14));
    run, acts := run + [HandOff(s14)], acts + [AHandOff];
  }

  /** A run in which an entry is skipped, but handed to the tracker before the answer: nothing is missing. */
  lemma SkippedEntryCanArrive() returns (run: seq<State>, acts: seq<Action>)
    ensures IsRun(SMALL, run, acts) && |acts| == 15 && Enabled(SMALL, run[15], AAnswer)
    ensures var s := run[15];
            s.taken != [] && s.taken[0].skipped != [] && ReplyTo(s, s.taken[0]).inFlight == [FIRST, SECOND]
  {
    run, acts := BothHandedOff();
  }
}
