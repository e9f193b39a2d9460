/** The fetch manager as the source writes it: fields updated in place by the sections of its loop.
    Every section is proved to make exactly the move of the state machine in `ManagerCore`. */
module FetchManagers {
  import opened Types
  import opened ManagerCore
  import opened ManagerProofs
  import opened FlushProofs

  class FetchManager<Req(!new), Key(==), Val, Resp(!new), Ctx, Side> {
    const spec: FetchSpec<Req, Key, Val, Resp, Ctx, Side>
    const limit: nat

    // channels
    var received: set<nat>
    var fetchRx: seq<Message<Req>>
    var sideRx: seq<Side>
    var flushRequested: bool
    var flushReply: Option<TaggedCache<Key, Val>>
    var completionRx: seq<Done<Req, Key, Resp>>
    var replies: seq<Reply<Req, Resp>>

    // the manager's own fields
    var phase: Phase<Req>
    var ctx: Ctx
    var cacheHash: B256
    var cache: map<Key, Val>
    var permits: nat
    var epoch: nat
    var inflight: int

    // spawned tasks
    var running: seq<Task<Req, Key, Ctx>>
    var sending: seq<Done<Req, Key, Resp>>

    ghost function Value(): State<Req, Key, Val, Resp, Ctx, Side>
      reads this
    {
      State(received, fetchRx, sideRx, flushRequested, flushReply, phase, ctx, cacheHash, cache, limit, permits,
            epoch, inflight, running, sending, completionRx, replies)
    }

    constructor (spec: FetchSpec<Req, Key, Val, Resp, Ctx, Side>, ctx: Ctx, limit: nat)
      ensures Value() == Init(ctx, limit)
      ensures this.spec == spec
    {
      this.spec, this.ctx, this.limit := spec, ctx, limit;
      received, fetchRx, sideRx, flushRequested, flushReply := {}, [], [], false, None;
      completionRx, replies := [], [];
      phase, cacheHash, cache, permits := Idle, ZERO_HASH, map[], limit;
      epoch, inflight, running, sending := 0, 0, [], [];
    }

    method DrainSide()
      modifies this`ctx, this`sideRx
      ensures ctx == FoldSide(spec, old(ctx), old(sideRx)) && sideRx == []
    {
      while sideRx != []
        invariant FoldSide(spec, ctx, sideRx) == FoldSide(spec, old(ctx), old(sideRx))
        decreases |sideRx|
      {
        ctx := spec.onSide(ctx, sideRx[0]);
        sideRx := sideRx[1..];
      }
    }

    /** `try_recv` at the end of the fetch branch. */
    method TakeNext()
      modifies this`phase, this`fetchRx
      ensures Value() == Next(old(Value()))
    {
      if fetchRx == [] {
        phase := Idle;
      } else {
        phase, fetchRx := Serving(fetchRx[0]), fetchRx[1..];
      }
    }

    /** The tag check: values of another block are useless now. */
    method CheckTag(req: Req)
      modifies this`cache, this`cacheHash, this`epoch
      ensures Value() == Retag(spec, old(Value()), req)
    {
      var tag := spec.tag(req);
      if tag.Some? && cacheHash != tag.value {
        cache := map[];
        cacheHash := tag.value;
        epoch := epoch + 1;
      }
    }

    method ServeRequest(msg: Message<Req>)
      modifies this
      ensures Value() == ServeMessage(spec, old(Value()), msg)
    {
      CheckTag(msg.request);
      var key := spec.key(msg.request);
      if key in cache {
        replies := replies + [Reply(msg, Ok(spec.hit(cache[key])), Cached)];
        TakeNext();
      } else {
        phase := Acquiring(msg);
      }
    }

    method SpawnTask(msg: Message<Req>)
      requires permits > 0
      modifies this
      ensures Value() == SpawnFetch(spec, old(Value()), msg)
    {
      permits := permits - 1;
      inflight := inflight + 1;
      running := running + [Task(msg, spec.key(msg.request), epoch, ctx)];
      TakeNext();
    }

    method ApplyDone(done: Done<Req, Key, Resp>)
      modifies this`inflight, this`ctx, this`cache, this`replies
      ensures Value() == ApplyCompletion(spec, old(Value()), done)
    {
      inflight := inflight - 1;
      if done.result.Ok? {
        ctx := spec.onSuccess(ctx, done.key, done.result.value);
        if !spec.guarded || done.epoch == epoch {
          var value := spec.store(done.result.value);
          if value.Some? {
            cache := cache[done.key := value.value];
          }
        }
      }
      replies := replies + [Reply(done.waiter, done.result, Fetched(done.epoch))];
    }

    /** A completion received from the channel, if there is one. */
    method ReceiveDone()
      requires completionRx != []
      modifies this
      ensures Value() == ApplyCompletion(spec, old(Value()).(completionRx := old(completionRx)[1..]),
                                         old(completionRx)[0])
    {
      var done := completionRx[0];
      completionRx := completionRx[1..];
      ApplyDone(done);
    }

    method SendCache()
      modifies this
      ensures Value() == HandOver(old(Value()))
    {
      flushReply := Some(TaggedCache(cacheHash, cache));
      cacheHash, cache := ZERO_HASH, map[];
      epoch := epoch + 1;
      phase := Idle;
    }

    /** A reader's or the other manager's message, or the writer's flush request, reaches its channel. */
    method Arrive(a: Action<Req, Resp, Side>)
      requires a.Receive? || a.SideSend? || a.RequestFlush?
      modifies this
      ensures Value() == Step(spec, old(Value()), a)
    {
      match a {
        case Receive(msg) =>
          if msg.id !in received {
            received := received + {msg.id};
            fetchRx := fetchRx + [msg];
          }
        case SideSend(side) =>
          sideRx := sideRx + [side];
        case RequestFlush =>
          if !flushRequested && !phase.Draining? {
            flushRequested, flushReply := true, None;
          }
      }
    }

    /** A spawned fetch gets its result and drops its permit. */
    method FinishTask(i: nat, result: Result<Resp>)
      modifies this
      ensures Value() == Step(spec, old(Value()), FinishFetch(i, result))
    {
      if i < |running| {
        var t := running[i];
        running := Without(running, i);
        permits := permits + 1;
        sending := sending + [Done(t.waiter, t.key, t.epoch, result)];
      }
    }

    /** A finished fetch finds room in the completion channel. */
    method SendDone(i: nat)
      modifies this
      ensures Value() == Step(spec, old(Value()), SendCompletion(i))
    {
      if i < |sending| && |completionRx| < COMPLETION_CHANNEL_DEPTH {
        completionRx := completionRx + [sending[i]];
        sending := Without(sending, i);
      }
    }

    /** The fetch branch of the loop: pick up a request, look it up, spawn its fetch. */
    method FetchBranch(a: Action<Req, Resp, Side>)
      requires a.TakeRequest? || a.Serve? || a.Spawn?
      modifies this
      ensures Value() == Step(spec, old(Value()), a)
    {
      match a {
        case TakeRequest =>
          if phase.Idle? && fetchRx != [] {
            DrainSide();
            TakeNext();
          }
        case Serve =>
          if phase.Serving? {
            ServeRequest(phase.msg);
          }
        case Spawn =>
          if phase.Acquiring? && permits > 0 {
            SpawnTask(phase.msg);
          }
      }
    }

    /** The side, completion and flush branches of the loop. */
    method OtherBranches(a: Action<Req, Resp, Side>)
      requires a.TakeSide? || a.Complete? || a.BeginFlush? || a.EndFlush?
      modifies this
      ensures Value() == Step(spec, old(Value()), a)
    {
      match a {
        case TakeSide =>
          if phase.Idle? {
            DrainSide();
          }
        case Complete =>
          if (phase.Idle? || (phase.Draining? && inflight > 0)) && completionRx != [] {
            ReceiveDone();
          }
        case BeginFlush =>
          if phase.Idle? && flushRequested {
            phase, flushRequested := Draining, false;
          }
        case EndFlush(timedOut) =>
          if phase.Draining? && (inflight <= 0 || timedOut) {
            SendCache();
          }
      }
    }

    /** One move of the scheduler, whoever makes it. */
    method Act(a: Action<Req, Resp, Side>)
      modifies this
      ensures Value() == Step(spec, old(Value()), a)
    {
      match a {
        case FinishFetch(i, result) => FinishTask(i, result);
        case SendCompletion(i) => SendDone(i);
        case Receive(_) => Arrive(a);
        case SideSend(_) => Arrive(a);
        case RequestFlush => Arrive(a);
        case TakeRequest => FetchBranch(a);
        case Serve => FetchBranch(a);
        case Spawn => FetchBranch(a);
        case _ => OtherBranches(a);
      }
    }

    /** The manager under any scheduler. */
    method Run(script: seq<Action<Req, Resp, Side>>)
      modifies this
      ensures Value() == Exec(spec, old(Value()), script)
    {
      for i := 0 to |script|
        invariant Value() == Exec(spec, old(Value()), script[..i])
      {
        Act(script[i]);
        assert script[..i + 1][..i] == script[..i];
      }
      assert script[..|script|] == script;
    }

    /** Moves of readers and fetch tasks while the manager is parked on an await. */
    method Environment(moves: seq<Action<Req, Resp, Side>>)
      requires forall a :: a in moves ==> IsEnvironment(a)
      modifies this
      ensures Value() == Exec(spec, old(Value()), moves)
      ensures SameLoop(old(Value()), Value())
    {
      ghost var start := Value();
      for i := 0 to |moves|
        invariant Value() == Exec(spec, start, moves[..i])
        invariant SameLoop(start, Value())
      {
        ghost var before := Value();
        Act(moves[i]);
        EnvironmentStep(spec, before, moves[i]);
        assert moves[..i + 1][..i] == moves[..i];
      }
      assert moves[..|moves|] == moves;
    }

    /** One turn of the drain: the rest of the system makes `moves`, then a completion is received if the
        channel holds one. */
    method AwaitDone(moves: seq<Action<Req, Resp, Side>>)
      returns (got: bool, ghost part: seq<Action<Req, Resp, Side>>)
      requires phase.Draining? && inflight > 0 && Accounted(Value())
      requires forall a :: a in moves ==> IsEnvironment(a)
      modifies this
      ensures Value() == Exec(spec, old(Value()), part) && Accounted(Value())
      ensures phase.Draining? && epoch == old(epoch) && cacheHash == old(cacheHash)
      ensures inflight == old(inflight) - if got then 1 else 0
      ensures part == if got then moves + [Complete] else moves
    {
      ghost var start := Value();
      Environment(moves);
      ExecAccounting(spec, start, moves);
      part := moves;
      got := completionRx != [];
      if got {
        ghost var delivered := Value();
        Act(Complete);
        AccountingStep(spec, delivered, Complete);
        ExecSnoc(spec, start, part, Complete);
        part := part + [Complete];
      }
    }

    /** The drain loop. While the manager awaits its n-th completion the rest of the system makes the moves in
        `meanwhile[n]`; when the channel is then still empty, or `meanwhile` is used up, the deadline has
        passed. */
    method Drain(meanwhile: seq<seq<Action<Req, Resp, Side>>>)
      returns (timedOut: bool, ghost drain: seq<Action<Req, Resp, Side>>)
      requires phase.Draining? && Accounted(Value())
      requires forall w, a :: w in meanwhile && a in w ==> IsEnvironment(a)
      modifies this
      ensures Value() == Exec(spec, old(Value()), drain) && Accounted(Value())
      ensures forall a :: a in drain ==> IsEnvironment(a) || a == Complete
      ensures phase.Draining? && epoch == old(epoch) && cacheHash == old(cacheHash)
      ensures timedOut || inflight == 0
    {
      ghost var draining := Value();
      drain, timedOut := [], false;
      var n := 0;
      while inflight > 0 && !timedOut
        invariant Value() == Exec(spec, draining, drain)
        invariant forall a :: a in drain ==> IsEnvironment(a) || a == Complete
        invariant Accounted(Value()) && phase.Draining?
        invariant epoch == draining.epoch && cacheHash == draining.cacheHash
        invariant 0 <= n <= |meanwhile|
        decreases !timedOut, inflight
      {
        if n == |meanwhile| {
          timedOut := true;
        } else {
          ghost var part;
          var got;
          got, part := AwaitDone(meanwhile[n]);
          ExecAppend(spec, draining, drain, part);
          drain := drain + part;
          timedOut, n := !got, n + 1;
        }
      }
    }

    /** The flush branch. `mark` is how many replies had been given when the cache was opened: what is handed
        over is what was answered and stored since, the drained completions included. */
    method Flush(meanwhile: seq<seq<Action<Req, Resp, Side>>>, ghost mark: nat)
      returns (timedOut: bool, ghost drain: seq<Action<Req, Resp, Side>>)
      requires phase.Idle? && flushRequested && Accounted(Value())
      requires Lawful(spec) && Provenance(spec, Value(), Anything, AnyAnswer) && IsCollected(spec, Value(), mark)
      requires forall w, a :: w in meanwhile && a in w ==> IsEnvironment(a)
      modifies this
      ensures Value() == Exec(spec, old(Value()), [BeginFlush] + drain + [EndFlush(timedOut)])
      ensures forall a :: a in drain ==> IsEnvironment(a) || a == Complete
      ensures phase.Idle? && epoch == old(epoch) + 1 && cacheHash == ZERO_HASH && cache == map[]
      ensures mark <= |replies|
      ensures flushReply == Some(TaggedCache(old(cacheHash), Collected(spec, replies[mark..], old(epoch))))
      ensures !timedOut ==> running == [] && sending == [] && completionRx == []
    {
      ghost var start := Value();
      Act(BeginFlush);
      ghost var draining := Value();
      BeginKeepsCollected(spec, start, mark);
      timedOut, drain := Drain(meanwhile);
      KeepsCollected(spec, draining, drain, mark);
      ghost var drained := Value();
      Act(EndFlush(timedOut));
      assert Value() == HandOver(drained);
      ExecAround(spec, start, BeginFlush, drain, EndFlush(timedOut));
    }
  }

  lemma BeginKeepsCollected<Req, Key, Val, Resp, Ctx, Side>(
    spec: FetchSpec<Req, Key, Val, Resp, Ctx, Side>, s: State<Req, Key, Val, Resp, Ctx, Side>, mark: nat)
    requires s.phase.Idle? && s.flushRequested
    requires Accounted(s) && Provenance(spec, s, Anything, AnyAnswer) && IsCollected(spec, s, mark)
    ensures var s' := Step(spec, s, BeginFlush);
            && s' == s.(phase := Draining, flushRequested := false)
            && Accounted(s') && Provenance(spec, s', Anything, AnyAnswer) && IsCollected(spec, s', mark)
  {
  }

  lemma ExecAround<Req, Key, Val, Resp, Ctx, Side>(
    spec: FetchSpec<Req, Key, Val, Resp, Ctx, Side>, s: State<Req, Key, Val, Resp, Ctx, Side>,
    first: Action<Req, Resp, Side>, middle: seq<Action<Req, Resp, Side>>, last: Action<Req, Resp, Side>)
    ensures Exec(spec, s, [first] + middle + [last]) == Step(spec, Exec(spec, Step(spec, s, first), middle), last)
  {
    assert [] + [first] == [first];
    ExecSnoc(spec, s, [], first);
    ExecAppend(spec, s, [first], middle);
    ExecSnoc(spec, s, [first] + middle, last);
  }

  /** Within one epoch the cache goes on being what was answered and stored since it was opened. */
  lemma {:induction false} KeepsCollected<Req(!new), Key, Val, Resp(!new), Ctx, Side>(
    spec: FetchSpec<Req, Key, Val, Resp, Ctx, Side>, s: State<Req, Key, Val, Resp, Ctx, Side>,
    script: seq<Action<Req, Resp, Side>>, mark: nat)
    requires Lawful(spec) && Provenance(spec, s, Anything, AnyAnswer) && IsCollected(spec, s, mark)
    requires Exec(spec, s, script).epoch == s.epoch
    ensures IsCollected(spec, Exec(spec, s, script), mark)
    ensures Provenance(spec, Exec(spec, s, script), Anything, AnyAnswer)
    decreases |script|
  {
    if script == [] {
    } else {
      var front, a := script[..|script| - 1], script[|script| - 1];
      var at := Exec(spec, s, front);
      EpochHasOneTag(spec, s, front);
      EpochStep(spec, at, a);
      KeepsCollected(spec, s, front, mark);
      CollectedStep(spec, at, a, mark);
      assert Honest(spec, at, a, Anything, AnyAnswer);
      ProvenanceStep(spec, at, a, Anything, AnyAnswer);
    }
  }

  /** The part of the state only the manager's own loop may change. */
  ghost predicate SameLoop<Req, Key, Val, Resp, Ctx, Side>(
    s: State<Req, Key, Val, Resp, Ctx, Side>, s': State<Req, Key, Val, Resp, Ctx, Side>)
  {
    s' == s.(received := s'.received, fetchRx := s'.fetchRx, sideRx := s'.sideRx, permits := s'.permits,
             running := s'.running, sending := s'.sending, completionRx := s'.completionRx)
  }

  lemma EnvironmentStep<Req, Key, Val, Resp, Ctx, Side>(
    spec: FetchSpec<Req, Key, Val, Resp, Ctx, Side>, s: State<Req, Key, Val, Resp, Ctx, Side>,
    a: Action<Req, Resp, Side>)
    requires IsEnvironment(a)
    ensures SameLoop(s, Step(spec, s, a))
  {
  }

  lemma ExecSnoc<Req, Key, Val, Resp, Ctx, Side>(
    spec: FetchSpec<Req, Key, Val, Resp, Ctx, Side>, s: State<Req, Key, Val, Resp, Ctx, Side>,
    script: seq<Action<Req, Resp, Side>>, a: Action<Req, Resp, Side>)
    ensures Exec(spec, s, script + [a]) == Step(spec, Exec(spec, s, script), a)
  {
    assert (script + [a])[..|script|] == script;
  }

  lemma {:induction false} ExecAccounting<Req, Key, Val, Resp, Ctx, Side>(
    spec: FetchSpec<Req, Key, Val, Resp, Ctx, Side>, s: State<Req, Key, Val, Resp, Ctx, Side>,
    script: seq<Action<Req, Resp, Side>>)
    requires Accounted(s)
    ensures Accounted(Exec(spec, s, script))
    decreases |script|
  {
    if script == [] {
    } else {
      var front := script[..|script| - 1];
      ExecAccounting(spec, s, front);
      AccountingStep(spec, Exec(spec, s, front), script[|script| - 1]);
    }
  }
}
