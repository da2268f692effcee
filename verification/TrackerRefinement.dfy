/**
  The tracker's steps in the pipeline are calls of the `NotConfirmed` object: a hand-off is an Add, a
  confirmation a Confirm, an answer a HandleQuery. `name` says which object a batch identity stands for.
  Since the pipeline only ever confirms the head of a list, the slices in its replies never change.
 */
module TrackerRefinement {
  import opened GoSlices
  import opened PipelineCache
  import opened PipelineInvariant
  import opened PipelineModel
  import opened PipelineTheorems
  import opened Points
  import opened Sequences
  import Tracker

  type Naming = map<Ref, Tracker.Batch>

  /** Different identities are different objects, of the same metric. */
  ghost predicate NamingOk(name: Naming) {
    && (forall r :: r in name ==> name[r].metric == r.metric)
    && (forall r, q :: r in name && q in name && name[r] == name[q] ==> r == q)
  }

  function Named(name: Naming, rs: seq<Ref>): (bs: seq<Tracker.Batch?>)
    requires forall r :: r in rs ==> r in name
    ensures |bs| == |rs| && forall i :: 0 <= i < |rs| ==> bs[i] == name[rs[i]]
  {
    if rs == [] then [] else [name[rs[0]]] + Named(name, rs[1..])
  }

  /** The object's list of each metric is the pipeline's. */
  ghost predicate ListIs(name: Naming, view: seq<Tracker.Batch?>, rs: seq<Ref>) {
    (forall r :: r in rs ==> r in name) && view == Named(name, rs)
  }

  ghost predicate Represents(tracker: Tracker.NotConfirmed, s: State, name: Naming)
    requires tracker.Valid()
    reads tracker, tracker.mem.Keys
  {
    forall m :: ListIs(name, tracker.View(m), InflightOf(s, m))
  }

  lemma AppendNamed(name: Naming, view: seq<Tracker.Batch?>, rs: seq<Ref>, r: Ref)
    requires ListIs(name, view, rs) && r in name
    ensures ListIs(name, view + [name[r]], rs + [r])
  {
  }

  lemma {:induction false} RemoveNamed(name: Naming, view: seq<Tracker.Batch?>, rs: seq<Ref>, r: Ref)
    requires NamingOk(name) && ListIs(name, view, rs) && r in name
    ensures ListIs(name, RemoveFirst(view, name[r]), RemoveFirst(rs, r))
  {
    if rs != [] {
      assert rs[0] in rs;
      assert view[1..] == Named(name, rs[1..]);
      RemoveNamed(name, view[1..], rs[1..], r);
      var rest := RemoveFirst(rs[1..], r);
      if rs[0] != r { assert Named(name, [rs[0]] + rest) == [name[rs[0]]] + Named(name, rest); }
    }
  }

  // ---- One step ----

  /** The cache worker hands a batch to the tracker: m.add(p). */
  method HandOffIsAdd(tracker: Tracker.NotConfirmed, p: Tracker.Batch, ghost s: State, ghost name: Naming)
    requires tracker.Valid() && NamingOk(name) && Represents(tracker, s, name)
    requires s.held.Some? && s.held.value in name && name[s.held.value] == p
    modifies tracker, tracker.mem.Keys
    ensures tracker.Valid() && Represents(tracker, HandOff(s), name)
    ensures fresh(tracker.mem.Keys - old(tracker.mem.Keys)) && tracker.readers == old(tracker.readers)
    ensures Tracker.KeepsSlices(old(tracker.data), old(tracker.mem), tracker.readers, tracker.data, tracker.mem)
  {
    ghost var r := s.held.value;
    assert ListIs(name, tracker.View(p.metric), InflightOf(s, p.metric));
    AppendNamed(name, tracker.View(p.metric), InflightOf(s, p.metric), r);
    tracker.Add(p);
    forall m
      ensures ListIs(name, tracker.View(m), InflightOf(HandOff(s), m))
    {
      assert m != r.metric ==> InflightOf(HandOff(s), m) == InflightOf(s, m);
      assert m != r.metric ==> ListIs(name, old(tracker.View(m)), InflightOf(s, m));
    }
  }

  /** The readers of before are still there, with their slices. */
  ghost predicate SameSlices(readers: seq<Tracker.Reader>, readers': seq<Tracker.Reader>) {
    && |readers| <= |readers'|
    && forall k :: 0 <= k < |readers| ==>
         readers'[k].metric == readers[k].metric && readers'[k].slice == readers[k].slice
  }

  lemma ConfirmedSlices(readers: seq<Tracker.Reader>, p: Tracker.Batch)
    ensures SameSlices(readers, Tracker.Confirmed(readers, p)) && SameSlices(readers, readers)
  {
  }

  lemma HeadNamed(name: Naming, view: seq<Tracker.Batch?>, rs: seq<Ref>)
    requires ListIs(name, view, rs)
    ensures (view == [] <==> rs == []) && (rs != [] ==> rs[0] in name && view[0] == name[rs[0]])
  {
    if rs != [] { assert rs[0] in rs; }
  }

  lemma ConfirmedLists(s: State, m: Metric)
    requires s.confirmChan != []
    ensures var r := s.confirmChan[0];
            InflightOf(Confirm(s), m) == if m == r.metric then RemoveFirst(InflightOf(s, m), r) else InflightOf(s, m)
  {
  }

  /** The tracker receives a confirmation: m.confirm(c). */
  method ConfirmIsConfirm(tracker: Tracker.NotConfirmed, p: Tracker.Batch, ghost s: State, ghost name: Naming)
    requires tracker.Valid() && NamingOk(name) && Represents(tracker, s, name)
    requires s.confirmChan != [] && s.confirmChan[0] in name && name[s.confirmChan[0]] == p
    modifies tracker, tracker.mem.Keys
    ensures tracker.Valid() && Represents(tracker, Confirm(s), name)
    ensures tracker.mem.Keys == old(tracker.mem.Keys) && SameSlices(old(tracker.readers), tracker.readers)
    ensures InflightOf(s, p.metric) != [] && InflightOf(s, p.metric)[0] == s.confirmChan[0] ==>
              Tracker.KeepsSlices(old(tracker.data), old(tracker.mem), old(tracker.readers), tracker.data, tracker.mem)
  {
    ghost var r := s.confirmChan[0];
    assert ListIs(name, tracker.View(p.metric), InflightOf(s, p.metric));
    RemoveNamed(name, tracker.View(p.metric), InflightOf(s, p.metric), r);
    HeadNamed(name, tracker.View(p.metric), InflightOf(s, p.metric));
    ConfirmedSlices(tracker.readers, p);
    tracker.Confirm(p);
    forall m
      ensures ListIs(name, tracker.View(m), InflightOf(Confirm(s), m))
    {
      ConfirmedLists(s, m);
      assert m != r.metric ==> ListIs(name, old(tracker.View(m)), InflightOf(s, m));
    }
  }

  /** The tracker answers a query: m.handleQuery(q). The reply shows the batches of the pipeline's reply. */
  method AnswerIsHandleQuery(tracker: Tracker.NotConfirmed, metric: Metric, ghost s: State, ghost name: Naming)
    returns (inFlight: Option<Slice<Tracker.Batch?>>)
    requires tracker.Valid() && Represents(tracker, s, name)
    requires s.taken != [] && s.taken[0].query.metric == metric
    modifies tracker`readers
    ensures tracker.Valid() && Represents(tracker, Answer(s), name)
    ensures inFlight.None? <==> ReplyTo(s, s.taken[0]).inFlight == []
    ensures inFlight.Some? ==>
              InBounds(inFlight.value) && ListIs(name, Elems(inFlight.value), ReplyTo(s, s.taken[0]).inFlight)
    ensures SameSlices(old(tracker.readers), tracker.readers)
    ensures Shows(tracker.data, tracker.mem, tracker.readers, name, inFlight, ReplyTo(s, s.taken[0]))
  {
    assert ListIs(name, tracker.View(metric), InflightOf(s, metric));
    inFlight := tracker.HandleQuery(metric);
    forall m
      ensures ListIs(name, tracker.View(m), InflightOf(Answer(s), m))
    {
      assert ListIs(name, old(tracker.View(m)), InflightOf(s, m));
    }
    if inFlight.Some? {
      ghost var r := tracker.readers[|tracker.readers| - 1];
      assert Tracker.ReaderOk(tracker.data, tracker.mem, r);
      assert Showing(tracker.data, tracker.mem, name, r, inFlight.value, ReplyTo(s, s.taken[0]));
    }
  }

  // ---- A run ----

  /** The reader is of this slice, no append will write to what it sees, and it sees the batches of the reply. */
  ghost predicate Showing(data: Tracker.Lists, mem: Tracker.Memory, name: Naming, r: Tracker.Reader,
                          slice: Tracker.List,
                          reply: Reply) {
    && r.slice == slice && Tracker.Settled(data, r)
    && GoSlices.Inside(mem, slice) && ListIs(name, Contents(mem, slice), reply.inFlight)
  }

  ghost predicate Shows(data: Tracker.Lists, mem: Tracker.Memory, readers: seq<Tracker.Reader>, name: Naming,
                        slice: Option<Tracker.List>, reply: Reply) {
    match slice
    case None => reply.inFlight == []
    case Some(l) => exists k :: 0 <= k < |readers| && Showing(data, mem, name, readers[k], l, reply)
  }

  /** The slices handed out so far show the replies given so far. */
  ghost predicate AllShow(tracker: Tracker.NotConfirmed, name: Naming, slices: seq<Option<Tracker.List>>,
                          replies: seq<Reply>)
    reads tracker
  {
    && |slices| == |replies|
    && forall k :: 0 <= k < |slices| ==>
         Shows(tracker.data, tracker.mem, tracker.readers, name, slices[k], replies[k])
  }

  lemma {:induction false} NamedMore(name: Naming, name': Naming, rs: seq<Ref>)
    requires (forall r :: r in rs ==> r in name) && forall r :: r in name ==> r in name' && name'[r] == name[r]
    ensures (forall r :: r in rs ==> r in name') && Named(name', rs) == Named(name, rs)
  {
  }

  lemma StillShows(data: Tracker.Lists, mem: Tracker.Memory, readers: seq<Tracker.Reader>, name: Naming,
                   data': Tracker.Lists, mem': Tracker.Memory, readers': seq<Tracker.Reader>, name': Naming,
                   slice: Option<Tracker.List>, reply: Reply)
    requires Shows(data, mem, readers, name, slice, reply)
    requires Tracker.KeepsSlices(data, mem, readers, data', mem') && SameSlices(readers, readers')
    requires forall r :: r in name ==> r in name' && name'[r] == name[r]
    ensures Shows(data', mem', readers', name', slice, reply)
  {
    if slice.Some? {
      var k :| 0 <= k < |readers| && Showing(data, mem, name, readers[k], slice.value, reply);
      assert Tracker.KeepsSlice(data, mem, readers[k], data', mem');
      NamedMore(name, name', reply.inFlight);
      assert Showing(data', mem', name', readers'[k], slice.value, reply);
    }
  }

  lemma AllStillShow(data: Tracker.Lists, mem: Tracker.Memory, readers: seq<Tracker.Reader>, name: Naming,
                     data': Tracker.Lists, mem': Tracker.Memory, readers': seq<Tracker.Reader>, name': Naming,
                     slices: seq<Option<Tracker.List>>, replies: seq<Reply>)
    requires |slices| == |replies|
    requires forall k :: 0 <= k < |slices| ==> Shows(data, mem, readers, name, slices[k], replies[k])
    requires Tracker.KeepsSlices(data, mem, readers, data', mem') && SameSlices(readers, readers')
    requires forall r :: r in name ==> r in name' && name'[r] == name[r]
    ensures forall k :: 0 <= k < |slices| ==> Shows(data', mem', readers', name', slices[k], replies[k])
  {
    forall k | 0 <= k < |slices|
      ensures Shows(data', mem', readers', name', slices[k], replies[k])
    {
      StillShows(data, mem, readers, name, data', mem', readers', name', slices[k], replies[k]);
    }
  }

  predicate TouchesTracker(a: Action) {
    a.AHandOff? || a.AConfirm? || a.AAnswer?
  }

  lemma ReceiveLeavesTracker(s: State, accept: bool)
    requires s.input != []
    ensures Receive(s, accept).inflight == s.inflight && Receive(s, accept).answered == s.answered
  {
  }

  lemma HeadLeavesTracker(sys: System, s: State, order: seq<Ref>)
    ensures CacheHead(sys, s, order).inflight == s.inflight && CacheHead(sys, s, order).answered == s.answered
  {
  }

  lemma CacheLeavesTracker(sys: System, s: State, a: Action)
    requires Enabled(sys, s, a) && CacheStep(a) && !TouchesTracker(a)
    ensures Apply(sys, s, a).inflight == s.inflight && Apply(sys, s, a).answered == s.answered
  {
    match a
    case ASend(m, ps) =>
    case AAsk(m) =>
    case ASendDirect(m, ps, accept) => ReceiveLeavesTracker(Send(s, m, ps), accept);
    case AHead(order) => HeadLeavesTracker(sys, s, order);
    case AReceive(accept) => ReceiveLeavesTracker(s, accept);
    case ATakeQuery =>
    case AForwardQuery =>
  }

  lemma ThrottleLeavesTracker(sys: System, s: State, a: Action)
    requires Enabled(sys, s, a) && ThrottleStep(a)
    ensures Apply(sys, s, a).inflight == s.inflight && Apply(sys, s, a).answered == s.answered
  {
  }

  lemma WorkersLeaveTracker(sys: System, s: State, a: Action)
    requires Enabled(sys, s, a) && WorkerStep(a)
    ensures Apply(sys, s, a).inflight == s.inflight && Apply(sys, s, a).answered == s.answered
  {
  }

  lemma OthersLeaveTracker(sys: System, s: State, a: Action)
    requires Enabled(sys, s, a) && !TouchesTracker(a)
    ensures Apply(sys, s, a).inflight == s.inflight && Apply(sys, s, a).answered == s.answered
  {
    if CacheStep(a) {
      CacheLeavesTracker(sys, s, a);
    } else if ThrottleStep(a) {
      ThrottleLeavesTracker(sys, s, a);
    } else if WorkerStep(a) {
      WorkersLeaveTracker(sys, s, a);
    }
  }

  /** What a run keeps: the object stands for the state, and every slice handed out shows its reply. */
  ghost predicate Follows(tracker: Tracker.NotConfirmed, s: State, name: Naming, slices: seq<Option<Tracker.List>>)
    reads tracker, tracker.mem.Keys
  {
    && tracker.Valid() && NamingOk(name) && Represents(tracker, s, name)
    && AllShow(tracker, name, slices, s.answered)
  }

  /** The array behind the slice holds exactly the batches of the reply. */
  ghost predicate SliceShows(name: Naming, slice: Option<Tracker.List>, reply: Reply)
    reads if slice.Some? then {slice.value.arr} else {}
  {
    match slice
    case None => reply.inFlight == []
    case Some(l) => InBounds(l) && ListIs(name, Elems(l), reply.inFlight)
  }

  lemma ShownNow(tracker: Tracker.NotConfirmed, name: Naming, slice: Option<Tracker.List>, reply: Reply)
    requires tracker.Valid() && Shows(tracker.data, tracker.mem, tracker.readers, name, slice, reply)
    ensures SliceShows(name, slice, reply)
  {
    if slice.Some? { assert Contents(tracker.mem, slice.value) == Elems(slice.value); }
  }

  /** A batch that is handed over for the first time gets an object. */
  method NameHeld(tracker: Tracker.NotConfirmed, s: State, name: Naming, ghost slices: seq<Option<Tracker.List>>)
    returns (named: Naming)
    requires s.held.Some? && Follows(tracker, s, name, slices)
    ensures s.held.value in named && Follows(tracker, s, named, slices)
  {
    var r := s.held.value;
    named := name;
    if r !in name {
      var p := new Tracker.Batch(r.metric);
      named := name[r := p];
      forall m
        ensures ListIs(named, tracker.View(m), InflightOf(s, m))
      {
        assert ListIs(name, tracker.View(m), InflightOf(s, m));
        NamedMore(name, named, InflightOf(s, m));
      }
      AllStillShow(tracker.data, tracker.mem, tracker.readers, name, tracker.data, tracker.mem, tracker.readers, named,
                   slices, s.answered);
    }
  }

  method FollowHandOff(s: State, tracker: Tracker.NotConfirmed, name: Naming, ghost slices: seq<Option<Tracker.List>>)
    returns (name': Naming)
    requires s.held.Some? && Follows(tracker, s, name, slices)
    modifies tracker, tracker.mem.Keys
    ensures Follows(tracker, HandOff(s), name', slices) && fresh(tracker.mem.Keys - old(tracker.mem.Keys))
  {
    name' := NameHeld(tracker, s, name, slices);
    HandOffIsAdd(tracker, name'[s.held.value], s, name');
    AllStillShow(old(tracker.data), old(tracker.mem), old(tracker.readers), name', tracker.data, tracker.mem,
                 tracker.readers, name', slices, s.answered);
  }

  method FollowConfirm(ghost sys: System, s: State, tracker: Tracker.NotConfirmed, name: Naming,
                       ghost slices: seq<Option<Tracker.List>>)
    requires Inv(sys, s) && s.confirmChan != [] && Follows(tracker, s, name, slices)
    modifies tracker, tracker.mem.Keys
    ensures Follows(tracker, Confirm(s), name, slices) && tracker.mem.Keys == old(tracker.mem.Keys)
  {
    var r := s.confirmChan[0];
    HeadIsNamed(sys, s, tracker, name, slices);
    ConfirmIsConfirm(tracker, name[r], s, name);
    AllStillShow(old(tracker.data), old(tracker.mem), old(tracker.readers), name, tracker.data, tracker.mem,
                 tracker.readers, name, slices, s.answered);
  }

  /** A confirmation names the head of its list, which has an object. */
  lemma HeadIsNamed(sys: System, s: State, tracker: Tracker.NotConfirmed, name: Naming,
                    slices: seq<Option<Tracker.List>>)
    requires Inv(sys, s) && s.confirmChan != [] && Follows(tracker, s, name, slices)
    ensures var r := s.confirmChan[0];
            r in name && InflightOf(s, r.metric) != [] && InflightOf(s, r.metric)[0] == r
  {
    var r := s.confirmChan[0];
    assert MetricInv(sys, s, r.metric);
    ConfirmIsHead(sys, s);
    assert ListIs(name, tracker.View(r.metric), InflightOf(s, r.metric));
    HeadNamed(name, tracker.View(r.metric), InflightOf(s, r.metric));
  }

  method FollowAnswer(s: State, tracker: Tracker.NotConfirmed, name: Naming, slices: seq<Option<Tracker.List>>)
    returns (slices': seq<Option<Tracker.List>>)
    requires s.taken != [] && Follows(tracker, s, name, slices)
    modifies tracker`readers
    ensures Follows(tracker, Answer(s), name, slices')
  {
    var inFlight := AnswerIsHandleQuery(tracker, s.taken[0].query.metric, s, name);
    AllStillShow(old(tracker.data), old(tracker.mem), old(tracker.readers), name, tracker.data, tracker.mem,
                 tracker.readers, name, slices, s.answered);
    slices' := slices + [inFlight];
  }

  lemma FollowsOther(sys: System, s: State, a: Action, tracker: Tracker.NotConfirmed, name: Naming,
                     slices: seq<Option<Tracker.List>>)
    requires Enabled(sys, s, a) && !TouchesTracker(a) && Follows(tracker, s, name, slices)
    ensures Follows(tracker, Apply(sys, s, a), name, slices)
  {
    OthersLeaveTracker(sys, s, a);
    forall m
      ensures ListIs(name, tracker.View(m), InflightOf(Apply(sys, s, a), m))
    {
      assert ListIs(name, tracker.View(m), InflightOf(s, m));
    }
  }

  /** One step of a run: a call of the object, or nothing. */
  method Follow(ghost sys: System, s: State, a: Action, ghost t: State, tracker: Tracker.NotConfirmed, name: Naming,
                slices: seq<Option<Tracker.List>>)
    returns (name': Naming, slices': seq<Option<Tracker.List>>)
    requires Inv(sys, s) && Enabled(sys, s, a) && t == Apply(sys, s, a) && Follows(tracker, s, name, slices)
    modifies tracker, tracker.mem.Keys
    ensures Follows(tracker, t, name', slices') && fresh(tracker.mem.Keys - old(tracker.mem.Keys))
  {
    name', slices' := name, slices;
    if a.AHandOff? {
      name' := FollowHandOff(s, tracker, name, slices);
    } else if a.AConfirm? {
      FollowConfirm(sys, s, tracker, name, slices);
    } else if a.AAnswer? {
      slices' := FollowAnswer(s, tracker, name, slices);
    } else {
      FollowsOther(sys, s, a, tracker, name, slices);
    }
  }

  /**
    notConfirmed.worker along a run of the pipeline: its lists are those of the pipeline in the end, and
    every slice that it ever handed out, though shared and not copied, still shows its reply unchanged.
   */
  method Worker(ghost sys: System, run: seq<State>, acts: seq<Action>)
    returns (tracker: Tracker.NotConfirmed, slices: seq<Option<Tracker.List>>, ghost name: Naming)
    requires IsRun(sys, run, acts)
    ensures tracker.Valid() && NamingOk(name) && Represents(tracker, run[|acts|], name)
    ensures |slices| == |run[|acts|].answered|
    ensures forall k :: 0 <= k < |slices| ==> SliceShows(name, slices[k], run[|acts|].answered[k])
  {
    tracker := new Tracker.NotConfirmed();
    var names: Naming := map[];
    slices := [];
    for n := 0 to |acts|
      invariant fresh(tracker) && fresh(tracker.mem.Keys)
      invariant Follows(tracker, run[n], names, slices)
    {
      RunKeeps(sys, run, acts, n);
      assert Enabled(sys, run[n], acts[n]) && run[n + 1] == Apply(sys, run[n], acts[n]);
      names, slices := Follow(sys, run[n], acts[n], run[n + 1], tracker, names, slices);
    }
    name := names;
    forall k | 0 <= k < |slices|
      ensures SliceShows(name, slices[k], run[|acts|].answered[k])
    {
      ShownNow(tracker, name, slices[k], run[|acts|].answered[k]);
    }
  }
}
