/** The way of one request through a manager: it is taken up in turn, answered at once if it can be, and
    otherwise answered with the very result its own fetch got. */
module Callers {
  import opened Types
  import opened ManagerCore
  import opened ManagerProofs
  import opened FlushProofs

  // ---------------------------------------------------------------------------------------------
  // Every fetched reply is its own fetch's

  /** Move `n` of the run gave this result to the fetch of this very waiter. */
  ghost predicate DeliveredAt<Req, Key, Val, Resp, Ctx, Side>(
    spec: FetchSpec<Req, Key, Val, Resp, Ctx, Side>, s: State<Req, Key, Val, Resp, Ctx, Side>,
    script: seq<Action<Req, Resp, Side>>, n: nat, waiter: Message<Req>, epoch: nat, result: Result<Resp>)
  {
    && n < |script| && script[n].FinishFetch? && script[n].result == result
    && var at := Exec(spec, s, script[..n]);
       && script[n].task < |at.running|
       && at.running[script[n].task].waiter == waiter && at.running[script[n].task].epoch == epoch
  }

  ghost predicate Delivered<Req, Key, Val, Resp, Ctx, Side>(
    spec: FetchSpec<Req, Key, Val, Resp, Ctx, Side>, s: State<Req, Key, Val, Resp, Ctx, Side>,
    script: seq<Action<Req, Resp, Side>>, waiter: Message<Req>, epoch: nat, result: Result<Resp>)
  {
    exists n: nat :: DeliveredAt(spec, s, script, n, waiter, epoch, result)
  }

  /** Every result under way or given as a fetched reply stands in `gave`, failures included. */
  ghost predicate Carries<Req, Key, Val, Resp, Ctx, Side>(
    s: State<Req, Key, Val, Resp, Ctx, Side>, gave: (Message<Req>, nat, Result<Resp>) -> bool)
  {
    && (forall d :: d in s.sending ==> gave(d.waiter, d.epoch, d.result))
    && (forall d :: d in s.completionRx ==> gave(d.waiter, d.epoch, d.result))
    && (forall r :: r in s.replies && r.via.Fetched? ==> gave(r.waiter, r.via.epoch, r.result))
  }

  lemma CarriesStep<Req, Key, Val, Resp, Ctx, Side>(
    spec: FetchSpec<Req, Key, Val, Resp, Ctx, Side>, s: State<Req, Key, Val, Resp, Ctx, Side>,
    a: Action<Req, Resp, Side>, gave: (Message<Req>, nat, Result<Resp>) -> bool)
    requires Carries(s, gave)
    requires a.FinishFetch? && a.task < |s.running| ==>
               gave(s.running[a.task].waiter, s.running[a.task].epoch, a.result)
    ensures Carries(Step(spec, s, a), gave)
  {
    if a.SendCompletion? && a.done < |s.sending| {
      WithoutSplits(s.sending, a.done);
      assert s.sending[a.done] in s.sending;
    } else if a.Complete? && s.completionRx != [] {
      assert s.completionRx[0] in s.completionRx;
    }
  }

  lemma {:induction false} ExecCarries<Req, Key, Val, Resp, Ctx, Side>(
    spec: FetchSpec<Req, Key, Val, Resp, Ctx, Side>, s: State<Req, Key, Val, Resp, Ctx, Side>,
    script: seq<Action<Req, Resp, Side>>, n: nat, gave: (Message<Req>, nat, Result<Resp>) -> bool)
    requires Carries(s, gave) && n <= |script|
    requires forall w, e, r :: Delivered(spec, s, script, w, e, r) ==> gave(w, e, r)
    ensures Carries(Exec(spec, s, script[..n]), gave)
    decreases n
  {
    if n == 0 {
      assert script[..0] == [];
    } else {
      ExecCarries(spec, s, script, n - 1, gave);
      var at, a := Exec(spec, s, script[..n - 1]), script[n - 1];
      assert script[..n][..n - 1] == script[..n - 1];
      if a.FinishFetch? && a.task < |at.running| {
        assert DeliveredAt(spec, s, script, n - 1, at.running[a.task].waiter, at.running[a.task].epoch, a.result);
      }
      CarriesStep(spec, at, a, gave);
    }
  }

  /** In every interleaving a fetched reply carries exactly the result, success or failure, that a move of the
      run delivered to the fetch of that very waiter, whatever has become of its epoch. */
  lemma {:induction false} EveryFetchedReplyIsDelivered<Req(!new), Key, Val, Resp(!new), Ctx, Side>(
    spec: FetchSpec<Req, Key, Val, Resp, Ctx, Side>, ctx: Ctx, limit: nat, script: seq<Action<Req, Resp, Side>>)
    ensures var s0: State<Req, Key, Val, Resp, Ctx, Side> := Init(ctx, limit);
            forall r :: r in Exec(spec, s0, script).replies && r.via.Fetched? ==>
              Delivered(spec, s0, script, r.waiter, r.via.epoch, r.result)
  {
    var s0: State<Req, Key, Val, Resp, Ctx, Side> := Init(ctx, limit);
    var gave := (w: Message<Req>, e: nat, r: Result<Resp>) => Delivered(spec, s0, script, w, e, r);
    ExecCarries(spec, s0, script, |script|, gave);
    assert script[..|script|] == script;
  }

  // ---------------------------------------------------------------------------------------------
  // And every fetch's result is its caller's

  /** The fetch of this waiter is over with this result: all that is left of it, under way or answered, says so. */
  ghost predicate Finished<Req, Key, Val, Resp, Ctx, Side>(
    s: State<Req, Key, Val, Resp, Ctx, Side>, w: Message<Req>, epoch: nat, result: Result<Resp>)
  {
    && w.id in s.received
    && (forall m :: m in s.fetchRx ==> m.id != w.id)
    && (s.phase.Serving? || s.phase.Acquiring? ==> s.phase.msg.id != w.id)
    && (forall t :: t in s.running ==> t.waiter.id != w.id)
    && (forall d :: d in s.sending && d.waiter.id == w.id ==> d.waiter == w && d.epoch == epoch && d.result == result)
    && (forall d :: d in s.completionRx && d.waiter.id == w.id ==>
          d.waiter == w && d.epoch == epoch && d.result == result)
    && (forall r :: r in s.replies && r.waiter.id == w.id ==> r == Reply(w, result, Fetched(epoch)))
  }

  lemma NextFinished<Req, Key, Val, Resp, Ctx, Side>(
    s: State<Req, Key, Val, Resp, Ctx, Side>, w: Message<Req>, epoch: nat, result: Result<Resp>)
    requires Finished(s, w, epoch, result)
    ensures Finished(Next(s), w, epoch, result)
  {
    if s.fetchRx != [] {
      assert s.fetchRx[0] in s.fetchRx;
    }
  }

  lemma FetchBranchFinished<Req, Key, Val, Resp, Ctx, Side>(
    spec: FetchSpec<Req, Key, Val, Resp, Ctx, Side>, s: State<Req, Key, Val, Resp, Ctx, Side>,
    a: Action<Req, Resp, Side>, w: Message<Req>, epoch: nat, result: Result<Resp>)
    requires Finished(s, w, epoch, result) && (a.TakeRequest? || a.Serve? || a.Spawn?)
    ensures Finished(Step(spec, s, a), w, epoch, result)
  {
    if a.Serve? && s.phase.Serving? {
      var r := Retag(spec, s, s.phase.msg.request);
      var key := spec.key(s.phase.msg.request);
      if key in r.cache {
        NextFinished(r.(replies := r.replies + [Reply(s.phase.msg, Ok(spec.hit(r.cache[key])), Cached)]),
                     w, epoch, result);
      }
    } else if a.Spawn? && s.phase.Acquiring? && s.permits > 0 {
      var t := Task(s.phase.msg, spec.key(s.phase.msg.request), s.epoch, s.ctx);
      NextFinished(s.(permits := s.permits - 1, inflight := s.inflight + 1, running := s.running + [t]),
                   w, epoch, result);
    } else if a.TakeRequest? {
      NextFinished(s.(ctx := FoldSide(spec, s.ctx, s.sideRx), sideRx := []), w, epoch, result);
    }
  }

  lemma TasksFinished<Req, Key, Val, Resp, Ctx, Side>(
    spec: FetchSpec<Req, Key, Val, Resp, Ctx, Side>, s: State<Req, Key, Val, Resp, Ctx, Side>,
    a: Action<Req, Resp, Side>, w: Message<Req>, epoch: nat, result: Result<Resp>)
    requires Finished(s, w, epoch, result) && (a.FinishFetch? || a.SendCompletion? || a.Complete?)
    ensures Finished(Step(spec, s, a), w, epoch, result)
  {
    if a.FinishFetch? && a.task < |s.running| {
      WithoutSplits(s.running, a.task);
      assert s.running[a.task] in s.running;
    } else if a.SendCompletion? && a.done < |s.sending| {
      WithoutSplits(s.sending, a.done);
      assert s.sending[a.done] in s.sending;
    } else if a.Complete? && s.completionRx != [] {
      assert s.completionRx[0] in s.completionRx;
    }
  }

  lemma {:induction false} FinishedStep<Req, Key, Val, Resp, Ctx, Side>(
    spec: FetchSpec<Req, Key, Val, Resp, Ctx, Side>, s: State<Req, Key, Val, Resp, Ctx, Side>,
    a: Action<Req, Resp, Side>, w: Message<Req>, epoch: nat, result: Result<Resp>)
    requires Finished(s, w, epoch, result)
    ensures Finished(Step(spec, s, a), w, epoch, result)
  {
    match a
    case FinishFetch(_, _) => TasksFinished(spec, s, a, w, epoch, result);
    case SendCompletion(_) => TasksFinished(spec, s, a, w, epoch, result);
    case Complete => TasksFinished(spec, s, a, w, epoch, result);
    case TakeRequest => FetchBranchFinished(spec, s, a, w, epoch, result);
    case Serve => FetchBranchFinished(spec, s, a, w, epoch, result);
    case Spawn => FetchBranchFinished(spec, s, a, w, epoch, result);
    case _ =>
  }

  lemma {:induction false} CountTwo<T>(q: seq<T>, i: nat, j: nat, idOf: T -> nat, id: nat)
    requires i < j < |q| && idOf(q[i]) == id && idOf(q[j]) == id
    ensures Count(q, idOf, id) >= 2
    decreases |q|
  {
    var front := q[..|q| - 1];
    if j == |q| - 1 {
      assert front[i] == q[i];
      CountMember(front, q[i], idOf);
    } else {
      CountTwo(front, i, j, idOf, id);
    }
  }

  /** A waiter with a done fetch under way has nothing else in the manager. */
  lemma OneDone<Req, Key, Val, Resp, Ctx, Side>(s: State<Req, Key, Val, Resp, Ctx, Side>, d: Done<Req, Key, Resp>)
    requires ExactlyOnce(s) && d in s.sending
    ensures Finished(s, d.waiter, d.epoch, d.result)
  {
    var id := d.waiter.id;
    assert Outstanding(s, id) + Answered(s, id) == if id in s.received then 1 else 0;
    CountMember(s.sending, d, DoneId);
    forall m | m in s.fetchRx
      ensures m.id != id
    {
      CountMember(s.fetchRx, m, MessageId);
    }
    forall t | t in s.running
      ensures t.waiter.id != id
    {
      CountMember(s.running, t, TaskId);
    }
    forall e | e in s.completionRx
      ensures e.waiter.id != id
    {
      CountMember(s.completionRx, e, DoneId);
    }
    forall r | r in s.replies
      ensures r.waiter.id != id
    {
      CountMember(s.replies, r, ReplyId);
    }
    OnlyDone(s.sending, d);
  }

  lemma OnlyDone<Req, Key, Resp>(q: seq<Done<Req, Key, Resp>>, d: Done<Req, Key, Resp>)
    requires d in q && Count(q, DoneId, d.waiter.id) <= 1
    ensures forall e :: e in q && e.waiter.id == d.waiter.id ==> e == d
  {
    forall e | e in q && e.waiter.id == d.waiter.id
      ensures e == d
    {
      var i :| 0 <= i < |q| && q[i] == d;
      var j :| 0 <= j < |q| && q[j] == e;
      if i < j {
        CountTwo(q, i, j, DoneId, d.waiter.id);
      } else if j < i {
        CountTwo(q, j, i, DoneId, d.waiter.id);
      }
    }
  }

  lemma FinishFinishes<Req, Key, Val, Resp, Ctx, Side>(
    spec: FetchSpec<Req, Key, Val, Resp, Ctx, Side>, s: State<Req, Key, Val, Resp, Ctx, Side>,
    i: nat, result: Result<Resp>)
    requires ExactlyOnce(s) && i < |s.running|
    ensures Finished(Step(spec, s, FinishFetch(i, result)), s.running[i].waiter, s.running[i].epoch, result)
  {
    var s' := Step(spec, s, FinishFetch(i, result));
    ExactlyOnceStep(spec, s, FinishFetch(i, result));
    var t := s.running[i];
    var d := Done(t.waiter, t.key, t.epoch, result);
    assert s'.sending[|s.sending|] == d;
    OneDone(s', d);
  }

  /** The caller has been answered with this result, exactly once, or the answer is still on its way. */
  ghost predicate AnsweredOrComing<Req, Key, Val, Resp, Ctx, Side>(
    s: State<Req, Key, Val, Resp, Ctx, Side>, w: Message<Req>, epoch: nat, result: Result<Resp>)
  {
    || (Answered(s, w.id) == 1 && Outstanding(s, w.id) == 0 && Reply(w, result, Fetched(epoch)) in s.replies)
    || (Answered(s, w.id) == 0
        && exists d :: d in s.sending + s.completionRx && d.waiter == w && d.epoch == epoch && d.result == result)
  }

  lemma FinishedIsAnswered<Req, Key, Val, Resp, Ctx, Side>(
    s: State<Req, Key, Val, Resp, Ctx, Side>, w: Message<Req>, epoch: nat, result: Result<Resp>)
    requires ExactlyOnce(s) && Finished(s, w, epoch, result)
    ensures AnsweredOrComing(s, w, epoch, result)
  {
    assert Outstanding(s, w.id) + Answered(s, w.id) == 1;
    CountNone(s.fetchRx, MessageId, w.id);
    CountNone(s.running, TaskId, w.id);
    if forall r :: r in s.replies ==> r.waiter.id != w.id {
      CountNone(s.replies, ReplyId, w.id);
      if forall d :: d in s.sending ==> d.waiter.id != w.id {
        CountNone(s.sending, DoneId, w.id);
        if forall d :: d in s.completionRx ==> d.waiter.id != w.id {
          CountNone(s.completionRx, DoneId, w.id);
          assert false;
        }
      }
    } else {
      var r :| r in s.replies && r.waiter.id == w.id;
      CountMember(s.replies, r, ReplyId);
    }
  }

  lemma {:induction false} ExecFinished<Req, Key, Val, Resp, Ctx, Side>(
    spec: FetchSpec<Req, Key, Val, Resp, Ctx, Side>, s: State<Req, Key, Val, Resp, Ctx, Side>,
    script: seq<Action<Req, Resp, Side>>, n: nat, w: Message<Req>, epoch: nat, result: Result<Resp>)
    requires n <= |script| && Finished(Exec(spec, s, script[..n]), w, epoch, result)
    ensures Finished(Exec(spec, s, script), w, epoch, result)
    decreases |script|
  {
    if n == |script| {
      assert script[..n] == script;
    } else {
      var front := script[..|script| - 1];
      assert front[..n] == script[..n];
      ExecFinished(spec, s, front, n, w, epoch, result);
      FinishedStep(spec, Exec(spec, s, front), script[|script| - 1], w, epoch, result);
    }
  }

  /** Once move `n` of a run has given a fetch its result, its caller is answered exactly that, once, or the
      answer is on its way: whatever flushes, timeouts, tags and other fetches come in between. */
  lemma {:induction false} ResultReachesItsCaller<Req, Key, Val, Resp, Ctx, Side>(
    spec: FetchSpec<Req, Key, Val, Resp, Ctx, Side>, ctx: Ctx, limit: nat, script: seq<Action<Req, Resp, Side>>,
    n: nat, i: nat, result: Result<Resp>)
    requires n < |script| && script[n] == FinishFetch(i, result)
    requires i < |Exec(spec, Init(ctx, limit), script[..n]).running|
    ensures var t := Exec(spec, Init(ctx, limit), script[..n]).running[i];
            AnsweredOrComing(Exec(spec, Init(ctx, limit), script), t.waiter, t.epoch, result)
  {
    var s0: State<Req, Key, Val, Resp, Ctx, Side> := Init(ctx, limit);
    var at := Exec(spec, s0, script[..n]);
    ExecAccounted(spec, ctx, limit, script[..n]);
    ExecAccounted(spec, ctx, limit, script);
    FinishFinishes(spec, at, i, result);
    assert script[..n + 1][..n] == script[..n];
    ExecFinished(spec, s0, script, n + 1, at.running[i].waiter, at.running[i].epoch, result);
    FinishedIsAnswered(Exec(spec, s0, script), at.running[i].waiter, at.running[i].epoch, result);
  }

  // ---------------------------------------------------------------------------------------------
  // A fetch keeps what it was spawned with

  /** The waiter is past the queue, and a fetch of it that still runs is under this epoch with this context. */
  ghost predicate Spawned<Req, Key, Val, Resp, Ctx, Side>(
    s: State<Req, Key, Val, Resp, Ctx, Side>, w: Message<Req>, epoch: nat, ctx: Ctx)
  {
    && w.id in s.received
    && (forall m :: m in s.fetchRx ==> m.id != w.id)
    && (s.phase.Serving? || s.phase.Acquiring? ==> s.phase.msg.id != w.id)
    && (forall t :: t in s.running && t.waiter.id == w.id ==> t.waiter == w && t.epoch == epoch && t.ctx == ctx)
  }

  lemma NextSpawned<Req, Key, Val, Resp, Ctx, Side>(
    s: State<Req, Key, Val, Resp, Ctx, Side>, w: Message<Req>, epoch: nat, ctx: Ctx)
    requires Spawned(s, w, epoch, ctx)
    ensures Spawned(Next(s), w, epoch, ctx)
  {
    if s.fetchRx != [] {
      assert s.fetchRx[0] in s.fetchRx;
    }
  }

  lemma {:induction false} SpawnedStep<Req, Key, Val, Resp, Ctx, Side>(
    spec: FetchSpec<Req, Key, Val, Resp, Ctx, Side>, s: State<Req, Key, Val, Resp, Ctx, Side>,
    a: Action<Req, Resp, Side>, w: Message<Req>, epoch: nat, ctx: Ctx)
    requires Spawned(s, w, epoch, ctx)
    ensures Spawned(Step(spec, s, a), w, epoch, ctx)
  {
    if a.FinishFetch? && a.task < |s.running| {
      WithoutSplits(s.running, a.task);
    } else if a.Serve? && s.phase.Serving? {
      var r := Retag(spec, s, s.phase.msg.request);
      var key := spec.key(s.phase.msg.request);
      if key in r.cache {
        NextSpawned(r.(replies := r.replies + [Reply(s.phase.msg, Ok(spec.hit(r.cache[key])), Cached)]), w, epoch, ctx);
      }
    } else if a.Spawn? && s.phase.Acquiring? && s.permits > 0 {
      var t := Task(s.phase.msg, spec.key(s.phase.msg.request), s.epoch, s.ctx);
      NextSpawned(s.(permits := s.permits - 1, inflight := s.inflight + 1, running := s.running + [t]), w, epoch, ctx);
    } else if a.TakeRequest? {
      NextSpawned(s.(ctx := FoldSide(spec, s.ctx, s.sideRx), sideRx := []), w, epoch, ctx);
    }
  }

  /** A spawn captures the manager's epoch and context of that moment. */
  lemma SpawnCaptures<Req, Key, Val, Resp, Ctx, Side>(
    spec: FetchSpec<Req, Key, Val, Resp, Ctx, Side>, s: State<Req, Key, Val, Resp, Ctx, Side>)
    requires ExactlyOnce(s) && s.phase.Acquiring? && s.permits > 0
    ensures var s' := Step(spec, s, Spawn);
            && Spawned(s', s.phase.msg, s.epoch, s.ctx)
            && s'.running == s.running + [Task(s.phase.msg, spec.key(s.phase.msg.request), s.epoch, s.ctx)]
  {
    var w, id := s.phase.msg, s.phase.msg.id;
    assert Outstanding(s, id) + Answered(s, id) == if id in s.received then 1 else 0;
    forall m | m in s.fetchRx
      ensures m.id != id
    {
      CountMember(s.fetchRx, m, MessageId);
    }
    forall t | t in s.running
      ensures t.waiter.id != id
    {
      CountMember(s.running, t, TaskId);
    }
    if s.fetchRx != [] {
      assert s.fetchRx[0] in s.fetchRx;
    }
  }

  // ---------------------------------------------------------------------------------------------
  // Lookups

  /** The request belongs to the block the cache stands for, or to none. */
  predicate SameTag<Req, Key, Val, Resp, Ctx, Side>(
    spec: FetchSpec<Req, Key, Val, Resp, Ctx, Side>, s: State<Req, Key, Val, Resp, Ctx, Side>, req: Req)
  {
    spec.tag(req).None? || spec.tag(req) == Some(s.cacheHash)
  }

  /** A lookup: a key cached under the request's own tag is answered at once and costs nothing; otherwise the
      request goes for a permit, unanswered, and a request of another tag first empties the cache. */
  lemma LookupAnswersOrWaits<Req, Key, Val, Resp, Ctx, Side>(
    spec: FetchSpec<Req, Key, Val, Resp, Ctx, Side>, s: State<Req, Key, Val, Resp, Ctx, Side>)
    requires s.phase.Serving?
    ensures var msg, s' := s.phase.msg, Step(spec, s, Serve);
            var key := spec.key(msg.request);
            && s'.running == s.running && s'.inflight == s.inflight && s'.permits == s.permits
            && (SameTag(spec, s, msg.request) ==>
                  s'.cache == s.cache && s'.cacheHash == s.cacheHash && s'.epoch == s.epoch)
            && (!SameTag(spec, s, msg.request) ==>
                  s'.cache == map[] && Some(s'.cacheHash) == spec.tag(msg.request) && s'.epoch == s.epoch + 1)
            && if SameTag(spec, s, msg.request) && key in s.cache
               then s'.replies == s.replies + [Reply(msg, Ok(spec.hit(s.cache[key])), Cached)]
               else s'.replies == s.replies && s'.phase == Acquiring(msg)
  {
  }

  /** No second fetch: in any run of a guarded manager, when a request comes up whose key was already answered
      and stored in this epoch, under the tag the cache has, it is answered then and there. */
  lemma {:induction false} SecondReadIsFree<Req(!new), Key, Val, Resp(!new), Ctx, Side>(
    spec: FetchSpec<Req, Key, Val, Resp, Ctx, Side>, ctx: Ctx, limit: nat, script: seq<Action<Req, Resp, Side>>,
    r: Reply<Req, Resp>)
    requires Lawful(spec) && spec.guarded
    requires var s := Exec(spec, Init(ctx, limit), script);
             && s.phase.Serving? && r in s.replies && r.via == Fetched(s.epoch) && r.result.Ok?
             && spec.store(r.result.value).Some?
             && spec.key(r.waiter.request) == spec.key(s.phase.msg.request)
             && spec.tag(r.waiter.request) == spec.tag(s.phase.msg.request)
    ensures var s := Exec(spec, Init(ctx, limit), script);
            var s' := Step(spec, s, Serve);
            && |s'.replies| == |s.replies| + 1 && s'.replies[|s.replies|].waiter == s.phase.msg
            && s'.replies[|s.replies|].via == Cached && s'.inflight == s.inflight
  {
    var s := Exec(spec, Init(ctx, limit), script);
    ExecExact(spec, ctx, limit, script);
    assert Produced(spec, r, s.epoch);
    LookupAnswersOrWaits(spec, s);
  }

  // ---------------------------------------------------------------------------------------------
  // Order

  /** The requests a run has received, in the order they came. */
  function Arrivals<Req, Key, Val, Resp, Ctx, Side>(
    spec: FetchSpec<Req, Key, Val, Resp, Ctx, Side>, s: State<Req, Key, Val, Resp, Ctx, Side>,
    script: seq<Action<Req, Resp, Side>>): seq<Message<Req>>
    decreases |script|
  {
    if script == [] then []
    else
      var front, a := script[..|script| - 1], script[|script| - 1];
      Arrivals(spec, s, front)
      + if a.Receive? && a.msg.id !in Exec(spec, s, front).received then [a.msg] else []
  }

  /** The first `k` of the arrivals have been taken up, the last of them is the one at hand, and the rest wait. */
  ghost predicate InTurn<Req, Key, Val, Resp, Ctx, Side>(
    s: State<Req, Key, Val, Resp, Ctx, Side>, arrivals: seq<Message<Req>>, k: nat)
  {
    && k <= |arrivals| && s.fetchRx == arrivals[k..]
    && (s.phase.Serving? || s.phase.Acquiring? ==> k > 0 && s.phase.msg == arrivals[k - 1])
  }

  lemma InTurnStep<Req, Key, Val, Resp, Ctx, Side>(
    spec: FetchSpec<Req, Key, Val, Resp, Ctx, Side>, s: State<Req, Key, Val, Resp, Ctx, Side>,
    a: Action<Req, Resp, Side>, arrivals: seq<Message<Req>>, k: nat) returns (k': nat)
    requires InTurn(s, arrivals, k)
    ensures InTurn(Step(spec, s, a),
                   arrivals + (if a.Receive? && a.msg.id !in s.received then [a.msg] else []), k')
    ensures k <= k' <= k + 1
  {
    var s' := Step(spec, s, a);
    k' := if |s'.fetchRx| < |s.fetchRx| then k + 1 else k;
    assert arrivals + [] == arrivals;
    if s.fetchRx != [] {
      assert arrivals[k..][0] == arrivals[k] && arrivals[k..][1..] == arrivals[k + 1..];
    }
    if a.Receive? {
      assert (arrivals + [a.msg])[k..] == arrivals[k..] + [a.msg];
    }
  }

  /** Requests are taken up one by one in the order they came. */
  lemma {:induction false} RequestsAreTakenInTurn<Req, Key, Val, Resp, Ctx, Side>(
    spec: FetchSpec<Req, Key, Val, Resp, Ctx, Side>, ctx: Ctx, limit: nat, script: seq<Action<Req, Resp, Side>>)
    returns (k: nat)
    ensures var s0: State<Req, Key, Val, Resp, Ctx, Side> := Init(ctx, limit);
            InTurn(Exec(spec, s0, script), Arrivals(spec, s0, script), k)
    decreases |script|
  {
    if script == [] {
      k := 0;
    } else {
      var front := script[..|script| - 1];
      k := RequestsAreTakenInTurn(spec, ctx, limit, front);
      var s0: State<Req, Key, Val, Resp, Ctx, Side> := Init(ctx, limit);
      k := InTurnStep(spec, Exec(spec, s0, front), script[|script| - 1], Arrivals(spec, s0, front), k);
    }
  }

  // ---------------------------------------------------------------------------------------------
  // Progress

  /** How much there is left to do for everything that was received. */
  function Work<Req, Key, Val, Resp, Ctx, Side>(s: State<Req, Key, Val, Resp, Ctx, Side>): nat {
    6 * |s.fetchRx| + 3 * |s.running| + 2 * |s.sending| + |s.completionRx|
    + match s.phase
      case Idle => 0
      case Draining => 1
      case Acquiring(_) => 4
      case Serving(_) => 5
  }

  /** The next move towards having everything answered. */
  function WorkMove<Req, Key, Val, Resp, Ctx, Side>(
    s: State<Req, Key, Val, Resp, Ctx, Side>, answers: nat -> Result<Resp>): Action<Req, Resp, Side>
  {
    match s.phase
    case Serving(_) => Serve
    case Acquiring(_) =>
      if s.permits > 0 || s.running == [] then Spawn else FinishFetch(0, answers(s.running[0].waiter.id))
    case _ =>
      if s.completionRx != [] then Complete
      else if s.sending != [] then SendCompletion(0)
      else if s.running != [] then FinishFetch(0, answers(s.running[0].waiter.id))
      else if s.phase.Draining? then EndFlush(false)
      else TakeRequest
  }

  lemma WorkShrinks<Req, Key, Val, Resp, Ctx, Side>(
    spec: FetchSpec<Req, Key, Val, Resp, Ctx, Side>, s: State<Req, Key, Val, Resp, Ctx, Side>,
    answers: nat -> Result<Resp>)
    requires Accounted(s) && s.limit >= 1 && Work(s) > 0
    ensures Work(Step(spec, s, WorkMove(s, answers))) < Work(s)
  {
    if s.phase.Serving? {
      LookupAnswersOrWaits(spec, s);
    }
  }

  lemma WorkMoveIsInner<Req, Key, Val, Resp, Ctx, Side>(
    spec: FetchSpec<Req, Key, Val, Resp, Ctx, Side>, s: State<Req, Key, Val, Resp, Ctx, Side>,
    answers: nat -> Result<Resp>)
    ensures var a := WorkMove(s, answers);
            !a.Receive? && !a.RequestFlush? && !a.BeginFlush? && Step(spec, s, a).received == s.received
  {
  }

  lemma NothingLeft<Req, Key, Val, Resp, Ctx, Side>(s: State<Req, Key, Val, Resp, Ctx, Side>)
    requires ExactlyOnce(s) && Work(s) == 0
    ensures forall id :: id in s.received ==> Answered(s, id) == 1
  {
    forall id: nat | id in s.received
      ensures Answered(s, id) == 1
    {
      assert Outstanding(s, id) + Answered(s, id) == 1;
    }
  }

  lemma ExecFirst<Req, Key, Val, Resp, Ctx, Side>(
    spec: FetchSpec<Req, Key, Val, Resp, Ctx, Side>, s: State<Req, Key, Val, Resp, Ctx, Side>,
    a: Action<Req, Resp, Side>, rest: seq<Action<Req, Resp, Side>>)
    ensures Exec(spec, s, [a] + rest) == Exec(spec, Step(spec, s, a), rest)
  {
    ExecAppend(spec, s, [a], rest);
    assert [a][..0] == [];
  }

  /** From any state an interleaving can reach, and whatever the RPC says, there is a schedule after which
      everything received has been answered: the manager never blocks itself. */
  lemma {:induction false} EverythingCanBeAnswered<Req, Key, Val, Resp, Ctx, Side>(
    spec: FetchSpec<Req, Key, Val, Resp, Ctx, Side>, s: State<Req, Key, Val, Resp, Ctx, Side>,
    answers: nat -> Result<Resp>)
    returns (script: seq<Action<Req, Resp, Side>>)
    requires Accounted(s) && ExactlyOnce(s) && s.limit >= 1
    ensures Exec(spec, s, script).received == s.received
    ensures forall id :: id in s.received ==> Answered(Exec(spec, s, script), id) == 1
    ensures forall a :: a in script ==> !a.Receive? && !a.RequestFlush? && !a.BeginFlush?
    decreases Work(s)
  {
    if Work(s) == 0 {
      script := [];
      NothingLeft(s);
    } else {
      var a := WorkMove(s, answers);
      WorkShrinks(spec, s, answers);
      WorkMoveIsInner(spec, s, answers);
      AccountingStep(spec, s, a);
      ExactlyOnceStep(spec, s, a);
      var rest := EverythingCanBeAnswered(spec, Step(spec, s, a), answers);
      script := [a] + rest;
      ExecFirst(spec, s, a, rest);
    }
  }
}
