/** What becomes of the fetches a flush gives up on: they answer their callers and reach nothing else,
    however the run goes on. */
module AbandonedFetches {
  import opened Types
  import opened ManagerCore
  import opened ManagerProofs
  import opened FlushProofs
  import opened Callers

  /** The waiters whose fetch has not been applied. */
  ghost function InFlight<Req, Key, Val, Resp, Ctx, Side>(s: State<Req, Key, Val, Resp, Ctx, Side>): set<nat> {
    (set t | t in s.running :: t.waiter.id) + (set d | d in s.sending :: d.waiter.id)
    + (set d | d in s.completionRx :: d.waiter.id)
  }

  /** These waiters are past the queue, and every trace of their fetches is of an epoch that is over. */
  ghost predicate Abandoned<Req, Key, Val, Resp, Ctx, Side>(
    s: State<Req, Key, Val, Resp, Ctx, Side>, lost: set<nat>)
  {
    && lost <= s.received
    && (forall m :: m in s.fetchRx ==> m.id !in lost)
    && (s.phase.Serving? || s.phase.Acquiring? ==> s.phase.msg.id !in lost)
    && (forall t :: t in s.running && t.waiter.id in lost ==> t.epoch < s.epoch)
    && (forall d :: d in s.sending && d.waiter.id in lost ==> d.epoch < s.epoch)
    && (forall d :: d in s.completionRx && d.waiter.id in lost ==> d.epoch < s.epoch)
    && (forall r :: r in s.replies && r.waiter.id in lost ==> r.via.Fetched? && r.via.epoch < s.epoch)
  }

  /** The reply is a fetched answer to a request under this tag, and this is the value it stores. */
  ghost predicate Answers<Req, Key, Val, Resp, Ctx, Side>(
    spec: FetchSpec<Req, Key, Val, Resp, Ctx, Side>, r: Reply<Req, Resp>, hash: B256, k: Key, v: Val)
  {
    && r.via.Fetched? && r.result.Ok? && spec.store(r.result.value) == Some(v)
    && spec.key(r.waiter.request) == k && spec.tag(r.waiter.request) == CacheTag(spec, hash)
  }

  /** Every entry of the cache was answered to some waiter that was not abandoned. */
  ghost predicate AnsweredByOthers<Req, Key, Val, Resp, Ctx, Side>(
    spec: FetchSpec<Req, Key, Val, Resp, Ctx, Side>, replies: seq<Reply<Req, Resp>>, lost: set<nat>,
    cache: TaggedCache<Key, Val>)
  {
    forall k :: k in cache.data ==>
      exists r :: r in replies && r.waiter.id !in lost && Answers(spec, r, cache.blockHash, k, cache.data[k])
  }

  /** What a guarded manager keeps about waiters that a flush gave up on. */
  ghost predicate LateSafe<Req, Key, Val, Resp, Ctx, Side>(
    spec: FetchSpec<Req, Key, Val, Resp, Ctx, Side>, s: State<Req, Key, Val, Resp, Ctx, Side>, lost: set<nat>)
  {
    && EpochExact(spec, s) && Provenance(spec, s, Anything, AnyAnswer)
    && Abandoned(s, lost)
    && (s.flushReply.Some? ==> AnsweredByOthers(spec, s.replies, lost, s.flushReply.value))
  }

  lemma NextAbandoned<Req, Key, Val, Resp, Ctx, Side>(s: State<Req, Key, Val, Resp, Ctx, Side>, lost: set<nat>)
    requires Abandoned(s, lost)
    ensures Abandoned(Next(s), lost)
  {
    if s.fetchRx != [] {
      assert s.fetchRx[0] in s.fetchRx;
    }
  }

  lemma TasksAbandoned<Req, Key, Val, Resp, Ctx, Side>(
    spec: FetchSpec<Req, Key, Val, Resp, Ctx, Side>, s: State<Req, Key, Val, Resp, Ctx, Side>,
    a: Action<Req, Resp, Side>, lost: set<nat>)
    requires Abandoned(s, lost) && (a.FinishFetch? || a.SendCompletion?)
    ensures Abandoned(Step(spec, s, a), lost)
  {
    if a.FinishFetch? && a.task < |s.running| {
      WithoutSplits(s.running, a.task);
      assert s.running[a.task] in s.running;
    }
    if a.SendCompletion? && a.done < |s.sending| {
      WithoutSplits(s.sending, a.done);
      assert s.sending[a.done] in s.sending;
    }
  }

  lemma FetchBranchAbandoned<Req, Key, Val, Resp, Ctx, Side>(
    spec: FetchSpec<Req, Key, Val, Resp, Ctx, Side>, s: State<Req, Key, Val, Resp, Ctx, Side>,
    a: Action<Req, Resp, Side>, lost: set<nat>)
    requires Abandoned(s, lost) && (a.TakeRequest? || a.Serve? || a.Spawn?)
    ensures Abandoned(Step(spec, s, a), lost)
  {
    if a.Serve? && s.phase.Serving? {
      var r := Retag(spec, s, s.phase.msg.request);
      var key := spec.key(s.phase.msg.request);
      if key in r.cache {
        NextAbandoned(r.(replies := r.replies + [Reply(s.phase.msg, Ok(spec.hit(r.cache[key])), Cached)]), lost);
      }
    } else if a.Spawn? && s.phase.Acquiring? && s.permits > 0 {
      var t := Task(s.phase.msg, spec.key(s.phase.msg.request), s.epoch, s.ctx);
      NextAbandoned(s.(permits := s.permits - 1, inflight := s.inflight + 1, running := s.running + [t]), lost);
    } else if a.TakeRequest? {
      NextAbandoned(s.(ctx := FoldSide(spec, s.ctx, s.sideRx), sideRx := []), lost);
    }
  }

  lemma {:induction false} AbandonedStep<Req, Key, Val, Resp, Ctx, Side>(
    spec: FetchSpec<Req, Key, Val, Resp, Ctx, Side>, s: State<Req, Key, Val, Resp, Ctx, Side>,
    a: Action<Req, Resp, Side>, lost: set<nat>)
    requires Abandoned(s, lost)
    ensures Abandoned(Step(spec, s, a), lost)
  {
    match a
    case FinishFetch(_, _) => TasksAbandoned(spec, s, a, lost);
    case SendCompletion(_) => TasksAbandoned(spec, s, a, lost);
    case TakeRequest => FetchBranchAbandoned(spec, s, a, lost);
    case Serve => FetchBranchAbandoned(spec, s, a, lost);
    case Spawn => FetchBranchAbandoned(spec, s, a, lost);
    case _ =>
  }

  /** No entry of a guarded cache comes from an abandoned fetch, even under the same tag and key. */
  lemma CacheAvoids<Req, Key, Val, Resp, Ctx, Side>(
    spec: FetchSpec<Req, Key, Val, Resp, Ctx, Side>, s: State<Req, Key, Val, Resp, Ctx, Side>, lost: set<nat>)
    requires EpochExact(spec, s) && Abandoned(s, lost)
    ensures AnsweredByOthers(spec, s.replies, lost, TaggedCache(s.cacheHash, s.cache))
  {
    forall k | k in s.cache
      ensures exists r :: r in s.replies && r.waiter.id !in lost && Answers(spec, r, s.cacheHash, k, s.cache[k])
    {
      var r :| r in s.replies && Produced(spec, r, s.epoch) && spec.key(r.waiter.request) == k
               && spec.store(r.result.value) == Some(s.cache[k]);
      assert r.waiter.id !in lost && Answers(spec, r, s.cacheHash, k, s.cache[k]);
    }
  }

  lemma MoreReplies<Req, Key, Val, Resp, Ctx, Side>(
    spec: FetchSpec<Req, Key, Val, Resp, Ctx, Side>, replies: seq<Reply<Req, Resp>>, more: seq<Reply<Req, Resp>>,
    lost: set<nat>, cache: TaggedCache<Key, Val>)
    requires AnsweredByOthers(spec, replies, lost, cache) && replies <= more
    ensures AnsweredByOthers(spec, more, lost, cache)
  {
    forall k | k in cache.data
      ensures exists r :: r in more && r.waiter.id !in lost && Answers(spec, r, cache.blockHash, k, cache.data[k])
    {
      var r :| r in replies && r.waiter.id !in lost && Answers(spec, r, cache.blockHash, k, cache.data[k]);
      assert r in more;
    }
  }

  /** A step adds replies, and changes the flush reply only to the cache it hands over. */
  lemma FlushReplyStep<Req, Key, Val, Resp, Ctx, Side>(
    spec: FetchSpec<Req, Key, Val, Resp, Ctx, Side>, s: State<Req, Key, Val, Resp, Ctx, Side>,
    a: Action<Req, Resp, Side>)
    ensures var s' := Step(spec, s, a);
            && s.replies <= s'.replies
            && (s'.flushReply.Some? ==> s'.flushReply == s.flushReply
                                        || s'.flushReply == Some(TaggedCache(s.cacheHash, s.cache)))
  {
  }

  lemma {:induction false} LateSafeStep<Req(!new), Key, Val, Resp(!new), Ctx, Side>(
    spec: FetchSpec<Req, Key, Val, Resp, Ctx, Side>, s: State<Req, Key, Val, Resp, Ctx, Side>,
    a: Action<Req, Resp, Side>, lost: set<nat>)
    requires Lawful(spec) && spec.guarded && LateSafe(spec, s, lost)
    ensures LateSafe(spec, Step(spec, s, a), lost)
  {
    var s' := Step(spec, s, a);
    assert Honest(spec, s, a, Anything, AnyAnswer);
    ProvenanceStep(spec, s, a, Anything, AnyAnswer);
    ExactStep(spec, s, a);
    AbandonedStep(spec, s, a, lost);
    FlushReplyStep(spec, s, a);
    if s'.flushReply.Some? {
      if s'.flushReply != s.flushReply {
        CacheAvoids(spec, s, lost);
      }
      MoreReplies(spec, s.replies, s'.replies, lost, s'.flushReply.value);
    }
  }

  lemma {:induction false} ExecLateSafe<Req(!new), Key, Val, Resp(!new), Ctx, Side>(
    spec: FetchSpec<Req, Key, Val, Resp, Ctx, Side>, s: State<Req, Key, Val, Resp, Ctx, Side>,
    script: seq<Action<Req, Resp, Side>>, lost: set<nat>)
    requires Lawful(spec) && spec.guarded && LateSafe(spec, s, lost)
    ensures LateSafe(spec, Exec(spec, s, script), lost)
    decreases |script|
  {
    if script == [] {
    } else {
      var front := script[..|script| - 1];
      ExecLateSafe(spec, s, front, lost);
      LateSafeStep(spec, Exec(spec, s, front), script[|script| - 1], lost);
    }
  }

  /** A waiter whose fetch is in flight is nowhere else. */
  lemma InFlightOnly<Req, Key, Val, Resp, Ctx, Side>(s: State<Req, Key, Val, Resp, Ctx, Side>, id: nat)
    requires ExactlyOnce(s) && id in InFlight(s)
    ensures id in s.received
    ensures forall m :: m in s.fetchRx ==> m.id != id
    ensures s.phase.Serving? || s.phase.Acquiring? ==> s.phase.msg.id != id
    ensures forall r :: r in s.replies ==> r.waiter.id != id
  {
    assert Outstanding(s, id) + Answered(s, id) == if id in s.received then 1 else 0;
    if t :| t in s.running && t.waiter.id == id {
      CountMember(s.running, t, TaskId);
    } else if d :| d in s.sending && d.waiter.id == id {
      CountMember(s.sending, d, DoneId);
    } else {
      var d :| d in s.completionRx && d.waiter.id == id;
      CountMember(s.completionRx, d, DoneId);
    }
    forall m | m in s.fetchRx
      ensures m.id != id
    {
      CountMember(s.fetchRx, m, MessageId);
    }
    forall r | r in s.replies
      ensures r.waiter.id != id
    {
      CountMember(s.replies, r, ReplyId);
    }
  }

  /** The end of a flush gives up on what is in flight: safely. */
  lemma FlushGivesUp<Req, Key, Val, Resp, Ctx, Side>(
    spec: FetchSpec<Req, Key, Val, Resp, Ctx, Side>, s: State<Req, Key, Val, Resp, Ctx, Side>, timedOut: bool)
    requires EpochExact(spec, s) && Provenance(spec, s, Anything, AnyAnswer) && ExactlyOnce(s)
    requires s.phase.Draining? && (s.inflight <= 0 || timedOut)
    requires Accounted(s) && Provenance(spec, Step(spec, s, EndFlush(timedOut)), Anything, AnyAnswer)
    ensures InFlight(Step(spec, s, EndFlush(timedOut))) == InFlight(s)
    ensures LateSafe(spec, Step(spec, s, EndFlush(timedOut)), InFlight(s))
  {
    var lost, s' := InFlight(s), Step(spec, s, EndFlush(timedOut));
    forall id | id in lost
      ensures id in s.received && (forall m :: m in s.fetchRx ==> m.id != id)
      ensures forall r :: r in s.replies ==> r.waiter.id != id
    {
      InFlightOnly(s, id);
    }
    AllOfClosedEpoch(spec, s, timedOut);
    forall k | k in s.cache
      ensures exists r :: r in s.replies && r.waiter.id !in lost && Answers(spec, r, s.cacheHash, k, s.cache[k])
    {
      var r :| r in s.replies && Produced(spec, r, s.epoch) && spec.key(r.waiter.request) == k
               && spec.store(r.result.value) == Some(s.cache[k]);
      assert r.waiter.id !in lost && Answers(spec, r, s.cacheHash, k, s.cache[k]);
    }
  }

  /** What becomes of the fetches a flush gives up on. However the run goes on, each such caller is answered
      exactly once, with the very result its own fetch got, success or failure, or its fetch is still on its
      way; and nothing that its fetch brings is ever in the cache or in a flushed cache again: every entry
      there was answered to another waiter, under the cache's own tag. */
  lemma {:induction false} AbandonedFetchesOnlyAnswer<Req(!new), Key, Val, Resp(!new), Ctx, Side>(
    spec: FetchSpec<Req, Key, Val, Resp, Ctx, Side>, ctx: Ctx, limit: nat,
    before: seq<Action<Req, Resp, Side>>, timedOut: bool, after: seq<Action<Req, Resp, Side>>)
    requires Lawful(spec) && spec.guarded
    requires var s := Exec(spec, Init(ctx, limit), before); s.phase.Draining? && (s.inflight <= 0 || timedOut)
    ensures var s0: State<Req, Key, Val, Resp, Ctx, Side> := Init(ctx, limit);
            var flushed := Step(spec, Exec(spec, s0, before), EndFlush(timedOut));
            var lost, end := InFlight(flushed), Exec(spec, flushed, after);
            && AnsweredByOthers(spec, end.replies, lost, TaggedCache(end.cacheHash, end.cache))
            && (end.flushReply.Some? ==> AnsweredByOthers(spec, end.replies, lost, end.flushReply.value))
            && (forall id :: id in lost ==> Answered(end, id) + (if id in InFlight(end) then 1 else 0) == 1)
            && (forall r :: r in end.replies && r.waiter.id in lost ==>
                  && r.via.Fetched? && r.via.epoch < end.epoch
                  && Delivered(spec, s0, before + [EndFlush(timedOut)] + after, r.waiter, r.via.epoch, r.result))
  {
    var s0: State<Req, Key, Val, Resp, Ctx, Side> := Init(ctx, limit);
    var s := Exec(spec, s0, before);
    ExecExact(spec, ctx, limit, before);
    ExecAccounted(spec, ctx, limit, before);
    assert Honest(spec, s, EndFlush(timedOut), Anything, AnyAnswer);
    ProvenanceStep(spec, s, EndFlush(timedOut), Anything, AnyAnswer);
    FlushGivesUp(spec, s, timedOut);
    var flushed := Step(spec, s, EndFlush(timedOut));
    var lost, end := InFlight(flushed), Exec(spec, flushed, after);
    ExecLateSafe(spec, flushed, after, lost);
    CacheAvoids(spec, end, lost);
    ExactlyOnceStep(spec, s, EndFlush(timedOut));
    ExecExactlyOnce(spec, flushed, after);
    forall id | id in lost
      ensures Answered(end, id) + (if id in InFlight(end) then 1 else 0) == 1
    {
      AnsweredOrInFlight(end, lost, id);
    }
    ExecThrough(spec, s0, before, EndFlush(timedOut), after);
    EveryFetchedReplyIsDelivered(spec, ctx, limit, before + [EndFlush(timedOut)] + after);
  }

  lemma ExecThrough<Req, Key, Val, Resp, Ctx, Side>(
    spec: FetchSpec<Req, Key, Val, Resp, Ctx, Side>, s: State<Req, Key, Val, Resp, Ctx, Side>,
    before: seq<Action<Req, Resp, Side>>, a: Action<Req, Resp, Side>, after: seq<Action<Req, Resp, Side>>)
    ensures Exec(spec, s, before + [a] + after) == Exec(spec, Step(spec, Exec(spec, s, before), a), after)
  {
    ExecAppend(spec, s, before + [a], after);
    assert (before + [a])[..|before|] == before;
  }

  lemma {:induction false} ExecExactlyOnce<Req, Key, Val, Resp, Ctx, Side>(
    spec: FetchSpec<Req, Key, Val, Resp, Ctx, Side>, s: State<Req, Key, Val, Resp, Ctx, Side>,
    script: seq<Action<Req, Resp, Side>>)
    requires ExactlyOnce(s)
    ensures ExactlyOnce(Exec(spec, s, script))
    decreases |script|
  {
    if script == [] {
    } else {
      ExecExactlyOnce(spec, s, script[..|script| - 1]);
      ExactlyOnceStep(spec, Exec(spec, s, script[..|script| - 1]), script[|script| - 1]);
    }
  }

  lemma AnsweredOrInFlight<Req, Key, Val, Resp, Ctx, Side>(
    s: State<Req, Key, Val, Resp, Ctx, Side>, lost: set<nat>, id: nat)
    requires ExactlyOnce(s) && Abandoned(s, lost) && id in lost
    ensures Answered(s, id) + (if id in InFlight(s) then 1 else 0) == 1
  {
    assert Outstanding(s, id) + Answered(s, id) == 1;
    CountNone(s.fetchRx, MessageId, id);
    if id in InFlight(s) {
      InFlightOnly(s, id);
      CountNone(s.replies, ReplyId, id);
    } else {
      CountNone(s.running, TaskId, id);
      CountNone(s.sending, DoneId, id);
      CountNone(s.completionRx, DoneId, id);
    }
  }
}
