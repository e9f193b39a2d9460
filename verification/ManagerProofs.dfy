/** What every interleaving of a fetch manager keeps: permit and in-flight accounting, exactly-once
    replies, one tag per epoch, and provenance of every cached, flushed and answered value. */
module ManagerProofs {
  import opened Types
  import opened ManagerCore

  // ---------------------------------------------------------------------------------------------
  // Accounting

  /** A permit is out for exactly the fetches still waiting on the RPC; `inflight` counts every fetch
      whose completion has not been applied. */
  ghost predicate Accounted<Req, Key, Val, Resp, Ctx, Side>(s: State<Req, Key, Val, Resp, Ctx, Side>) {
    && s.permits + |s.running| == s.limit
    && s.inflight == |s.running| + |s.sending| + |s.completionRx|
    && |s.completionRx| <= COMPLETION_CHANNEL_DEPTH
  }

  function MessageId<Req>(m: Message<Req>): nat { m.id }

  function TaskId<Req, Key, Ctx>(t: Task<Req, Key, Ctx>): nat { t.waiter.id }

  function DoneId<Req, Key, Resp>(d: Done<Req, Key, Resp>): nat { d.waiter.id }

  function ReplyId<Req, Resp>(r: Reply<Req, Resp>): nat { r.waiter.id }

  function PhaseId<Req>(p: Phase<Req>, id: nat): nat {
    if (p.Serving? || p.Acquiring?) && p.msg.id == id then 1 else 0
  }

  /** How many entries of a queue are a waiter's. */
  function Count<T>(q: seq<T>, idOf: T -> nat, id: nat): nat
    decreases |q|
  {
    if q == [] then 0 else Count(q[..|q| - 1], idOf, id) + if idOf(q[|q| - 1]) == id then 1 else 0
  }

  /** In how many places a waiter is still to be answered. */
  function Outstanding<Req, Key, Val, Resp, Ctx, Side>(s: State<Req, Key, Val, Resp, Ctx, Side>, id: nat): nat {
    Count(s.fetchRx, MessageId, id) + PhaseId(s.phase, id) + Count(s.running, TaskId, id)
    + Count(s.sending, DoneId, id) + Count(s.completionRx, DoneId, id)
  }

  function Answered<Req, Key, Val, Resp, Ctx, Side>(s: State<Req, Key, Val, Resp, Ctx, Side>, id: nat): nat {
    Count(s.replies, ReplyId, id)
  }

  /** Each received request is answered once, or outstanding in one place, and never both. */
  ghost predicate ExactlyOnce<Req, Key, Val, Resp, Ctx, Side>(s: State<Req, Key, Val, Resp, Ctx, Side>) {
    forall id: nat :: Outstanding(s, id) + Answered(s, id) == if id in s.received then 1 else 0
  }

  lemma WithoutSplits<T>(q: seq<T>, i: nat)
    requires i < |q|
    ensures |Without(q, i)| == |q| - 1
    ensures multiset(q) == multiset(Without(q, i)) + multiset{q[i]}
    ensures forall x :: x in Without(q, i) ==> x in q
  {
    assert q == q[..i] + [q[i]] + q[i + 1..];
  }

  lemma CountPush<T>(q: seq<T>, x: T, idOf: T -> nat, id: nat)
    ensures Count(q + [x], idOf, id) == Count(q, idOf, id) + if idOf(x) == id then 1 else 0
  {
    assert (q + [x])[..|q|] == q;
  }

  lemma {:induction false} CountWithout<T>(q: seq<T>, i: nat, idOf: T -> nat, id: nat)
    requires i < |q|
    ensures Count(q, idOf, id) == Count(Without(q, i), idOf, id) + if idOf(q[i]) == id then 1 else 0
    decreases |q|
  {
    var front, last := q[..|q| - 1], q[|q| - 1];
    if i == |q| - 1 {
      assert Without(q, i) == front;
    } else {
      CountWithout(front, i, idOf, id);
      assert Without(q, i) == Without(front, i) + [last];
      CountPush(Without(front, i), last, idOf, id);
    }
  }

  lemma CountPop<T>(q: seq<T>, idOf: T -> nat, id: nat)
    requires q != []
    ensures Count(q, idOf, id) == Count(q[1..], idOf, id) + if idOf(q[0]) == id then 1 else 0
  {
    CountWithout(q, 0, idOf, id);
    assert Without(q, 0) == q[1..];
  }

  lemma CountMember<T>(q: seq<T>, x: T, idOf: T -> nat)
    requires x in q
    ensures Count(q, idOf, idOf(x)) >= 1
  {
    var i :| 0 <= i < |q| && q[i] == x;
    CountWithout(q, i, idOf, idOf(x));
  }

  lemma {:induction false} CountNone<T>(q: seq<T>, idOf: T -> nat, id: nat)
    requires forall x :: x in q ==> idOf(x) != id
    ensures Count(q, idOf, id) == 0
    decreases |q|
  {
    if q == [] {
    } else {
      assert q[|q| - 1] in q;
      CountNone(q[..|q| - 1], idOf, id);
    }
  }

  /** Every place a waiter can be in, answered or not. */
  function Places<Req, Key, Val, Resp, Ctx, Side>(s: State<Req, Key, Val, Resp, Ctx, Side>, id: nat): nat {
    Outstanding(s, id) + Answered(s, id)
  }

  lemma NextIds<Req, Key, Val, Resp, Ctx, Side>(s: State<Req, Key, Val, Resp, Ctx, Side>, id: nat)
    ensures Places(Next(s), id) + PhaseId(s.phase, id) == Places(s, id)
  {
    if s.fetchRx != [] {
      CountPop(s.fetchRx, MessageId, id);
    }
  }

  lemma FinishIds<Req, Key, Val, Resp, Ctx, Side>(
    spec: FetchSpec<Req, Key, Val, Resp, Ctx, Side>, s: State<Req, Key, Val, Resp, Ctx, Side>,
    i: nat, result: Result<Resp>, id: nat)
    requires i < |s.running|
    ensures Places(Step(spec, s, FinishFetch(i, result)), id) == Places(s, id)
  {
    var t := s.running[i];
    CountWithout(s.running, i, TaskId, id);
    CountPush(s.sending, Done(t.waiter, t.key, t.epoch, result), DoneId, id);
  }

  lemma SendIds<Req, Key, Val, Resp, Ctx, Side>(
    spec: FetchSpec<Req, Key, Val, Resp, Ctx, Side>, s: State<Req, Key, Val, Resp, Ctx, Side>, i: nat, id: nat)
    requires i < |s.sending| && |s.completionRx| < COMPLETION_CHANNEL_DEPTH
    ensures Places(Step(spec, s, SendCompletion(i)), id) == Places(s, id)
  {
    CountWithout(s.sending, i, DoneId, id);
    CountPush(s.completionRx, s.sending[i], DoneId, id);
  }

  lemma ServeIds<Req, Key, Val, Resp, Ctx, Side>(
    spec: FetchSpec<Req, Key, Val, Resp, Ctx, Side>, s: State<Req, Key, Val, Resp, Ctx, Side>,
    msg: Message<Req>, id: nat)
    requires s.phase == Serving(msg)
    ensures Places(ServeMessage(spec, s, msg), id) == Places(s, id)
  {
    var r := Retag(spec, s, msg.request);
    var key := spec.key(msg.request);
    if key in r.cache {
      var reply := Reply(msg, Ok(spec.hit(r.cache[key])), Cached);
      NextIds(r.(replies := r.replies + [reply]), id);
      CountPush(s.replies, reply, ReplyId, id);
    }
  }

  lemma RunningIds<Req, Key, Val, Resp, Ctx, Side>(
    s: State<Req, Key, Val, Resp, Ctx, Side>, permits: nat, inflight: int, t: Task<Req, Key, Ctx>, id: nat)
    ensures Places(s.(permits := permits, inflight := inflight, running := s.running + [t]), id)
            == Places(s, id) + if t.waiter.id == id then 1 else 0
  {
    CountPush(s.running, t, TaskId, id);
  }

  lemma SpawnIds<Req, Key, Val, Resp, Ctx, Side>(
    spec: FetchSpec<Req, Key, Val, Resp, Ctx, Side>, s: State<Req, Key, Val, Resp, Ctx, Side>,
    msg: Message<Req>, id: nat)
    requires s.phase == Acquiring(msg) && s.permits > 0
    ensures Places(SpawnFetch(spec, s, msg), id) == Places(s, id)
  {
    var t := Task(msg, spec.key(msg.request), s.epoch, s.ctx);
    RunningIds(s, s.permits - 1, s.inflight + 1, t, id);
    NextIds(s.(permits := s.permits - 1, inflight := s.inflight + 1, running := s.running + [t]), id);
  }

  lemma CompleteIds<Req, Key, Val, Resp, Ctx, Side>(
    spec: FetchSpec<Req, Key, Val, Resp, Ctx, Side>, s: State<Req, Key, Val, Resp, Ctx, Side>, id: nat)
    requires s.completionRx != []
    ensures Places(ApplyCompletion(spec, s.(completionRx := s.completionRx[1..]), s.completionRx[0]), id)
            == Places(s, id)
  {
    var d := s.completionRx[0];
    CountPop(s.completionRx, DoneId, id);
    CountPush(s.replies, Reply(d.waiter, d.result, Fetched(d.epoch)), ReplyId, id);
  }

  lemma EnvironmentIds<Req, Key, Val, Resp, Ctx, Side>(
    spec: FetchSpec<Req, Key, Val, Resp, Ctx, Side>, s: State<Req, Key, Val, Resp, Ctx, Side>,
    a: Action<Req, Resp, Side>, id: nat)
    requires IsEnvironment(a)
    ensures var s' := Step(spec, s, a);
            Places(s', id) == Places(s, id) + if id in s'.received && id !in s.received then 1 else 0
  {
    match a
    case Receive(msg) => CountPush(s.fetchRx, msg, MessageId, id);
    case FinishFetch(i, result) => if i < |s.running| { FinishIds(spec, s, i, result, id); }
    case SendCompletion(i) =>
      if i < |s.sending| && |s.completionRx| < COMPLETION_CHANNEL_DEPTH { SendIds(spec, s, i, id); }
    case SideSend(_) =>
  }

  lemma FetchBranchIds<Req, Key, Val, Resp, Ctx, Side>(
    spec: FetchSpec<Req, Key, Val, Resp, Ctx, Side>, s: State<Req, Key, Val, Resp, Ctx, Side>,
    a: Action<Req, Resp, Side>, id: nat)
    requires a.TakeRequest? || a.Serve? || a.Spawn?
    ensures Step(spec, s, a).received == s.received && Places(Step(spec, s, a), id) == Places(s, id)
  {
    if a.Serve? && s.phase.Serving? {
      ServeIds(spec, s, s.phase.msg, id);
      assert Step(spec, s, a) == ServeMessage(spec, s, s.phase.msg);
    } else if a.Spawn? && s.phase.Acquiring? && s.permits > 0 {
      SpawnIds(spec, s, s.phase.msg, id);
      assert Step(spec, s, a) == SpawnFetch(spec, s, s.phase.msg);
    } else if a.TakeRequest? && s.phase.Idle? && s.fetchRx != [] {
      var drained := s.(ctx := FoldSide(spec, s.ctx, s.sideRx), sideRx := []);
      NextIds(drained, id);
      assert Step(spec, s, a) == Next(drained);
    }
  }

  lemma OtherBranchesIds<Req, Key, Val, Resp, Ctx, Side>(
    spec: FetchSpec<Req, Key, Val, Resp, Ctx, Side>, s: State<Req, Key, Val, Resp, Ctx, Side>,
    a: Action<Req, Resp, Side>, id: nat)
    requires !IsEnvironment(a) && !a.TakeRequest? && !a.Serve? && !a.Spawn?
    ensures Step(spec, s, a).received == s.received && Places(Step(spec, s, a), id) == Places(s, id)
  {
    if a.Complete? && s.completionRx != [] {
      CompleteIds(spec, s, id);
    }
  }

  /** Only receiving a request gives a waiter a place; every other move keeps its number of places. */
  lemma PlacesStep<Req, Key, Val, Resp, Ctx, Side>(
    spec: FetchSpec<Req, Key, Val, Resp, Ctx, Side>, s: State<Req, Key, Val, Resp, Ctx, Side>,
    a: Action<Req, Resp, Side>, id: nat)
    ensures var s' := Step(spec, s, a);
            Places(s', id) == Places(s, id) + if id in s'.received && id !in s.received then 1 else 0
  {
    if IsEnvironment(a) {
      EnvironmentIds(spec, s, a, id);
    } else if a.TakeRequest? || a.Serve? || a.Spawn? {
      FetchBranchIds(spec, s, a, id);
    } else {
      OtherBranchesIds(spec, s, a, id);
    }
  }

  lemma {:induction false} ExactlyOnceStep<Req, Key, Val, Resp, Ctx, Side>(
    spec: FetchSpec<Req, Key, Val, Resp, Ctx, Side>, s: State<Req, Key, Val, Resp, Ctx, Side>,
    a: Action<Req, Resp, Side>)
    requires ExactlyOnce(s)
    ensures ExactlyOnce(Step(spec, s, a))
  {
    var s' := Step(spec, s, a);
    forall id: nat
      ensures Outstanding(s', id) + Answered(s', id) == if id in s'.received then 1 else 0
    {
      PlacesStep(spec, s, a, id);
      assert Places(s, id) == if id in s.received then 1 else 0;
      ReceivedGrows(spec, s, a, id);
    }
  }

  lemma ReceivedGrows<Req, Key, Val, Resp, Ctx, Side>(
    spec: FetchSpec<Req, Key, Val, Resp, Ctx, Side>, s: State<Req, Key, Val, Resp, Ctx, Side>,
    a: Action<Req, Resp, Side>, id: nat)
    ensures id in s.received ==> id in Step(spec, s, a).received
  {
  }

  lemma {:induction false} AccountingStep<Req, Key, Val, Resp, Ctx, Side>(
    spec: FetchSpec<Req, Key, Val, Resp, Ctx, Side>, s: State<Req, Key, Val, Resp, Ctx, Side>,
    a: Action<Req, Resp, Side>)
    requires Accounted(s)
    ensures Accounted(Step(spec, s, a))
    ensures Step(spec, s, a).limit == s.limit
  {
  }

  /** Over every run from a fresh manager: the permit count, the in-flight count and the reply count
      are exact, so the `inflight` decrement never underflows, timed-out flushes included. */
  lemma {:induction false} ExecAccounted<Req, Key, Val, Resp, Ctx, Side>(
    spec: FetchSpec<Req, Key, Val, Resp, Ctx, Side>, ctx: Ctx, limit: nat, script: seq<Action<Req, Resp, Side>>)
    ensures var s := Exec(spec, Init(ctx, limit), script);
            && Accounted(s) && ExactlyOnce(s) && s.limit == limit
            && s.inflight >= 0 && (s.completionRx != [] ==> s.inflight >= 1)
    decreases |script|
  {
    if script == [] {
      var s: State<Req, Key, Val, Resp, Ctx, Side> := Init(ctx, limit);
      assert forall id: nat :: Outstanding(s, id) + Answered(s, id) == 0;
    } else {
      var front := script[..|script| - 1];
      ExecAccounted(spec, ctx, limit, front);
      AccountingStep(spec, Exec(spec, Init(ctx, limit), front), script[|script| - 1]);
      ExactlyOnceStep(spec, Exec(spec, Init(ctx, limit), front), script[|script| - 1]);
    }
  }

  // ---------------------------------------------------------------------------------------------
  // Progress

  /** How far the fetches in flight still have to travel. */
  function Distance<Req, Key, Val, Resp, Ctx, Side>(s: State<Req, Key, Val, Resp, Ctx, Side>): nat {
    3 * |s.running| + 2 * |s.sending| + |s.completionRx|
  }

  /** Blocked on a permit, some fetch holds one, and finishing it frees the permit whatever the
      completion channel looks like; the spawn then goes ahead. */
  lemma PermitWaitEnds<Req, Key, Val, Resp, Ctx, Side>(
    spec: FetchSpec<Req, Key, Val, Resp, Ctx, Side>, s: State<Req, Key, Val, Resp, Ctx, Side>,
    i: nat, result: Result<Resp>)
    requires Accounted(s) && s.limit >= 1 && s.phase.Acquiring? && s.permits == 0
    ensures |s.running| == s.limit
    ensures i < |s.running| ==>
              var f := Step(spec, s, FinishFetch(i, result));
              && f.permits == 1 && f.phase == s.phase
              && var g := Step(spec, f, Spawn);
                 && g.running[|g.running| - 1].waiter == s.phase.msg
                 && g.inflight == s.inflight + 1
  {
  }

  /** The next move that brings a waiting drain closer to its end. */
  function DrainMove<Req, Key, Val, Resp, Ctx, Side>(
    s: State<Req, Key, Val, Resp, Ctx, Side>, answers: nat -> Result<Resp>): Action<Req, Resp, Side>
  {
    if s.completionRx != [] then Complete
    else if s.sending != [] then SendCompletion(0)
    else if s.running != [] then FinishFetch(0, answers(s.running[0].waiter.id))
    else EndFlush(false)
  }

  /** A drain is never stuck: while something is in flight a completion can be applied, sent or
      produced, each strictly closer to the end. */
  lemma DrainMoves<Req, Key, Val, Resp, Ctx, Side>(
    spec: FetchSpec<Req, Key, Val, Resp, Ctx, Side>, s: State<Req, Key, Val, Resp, Ctx, Side>,
    answers: nat -> Result<Resp>)
    requires Accounted(s) && s.phase.Draining? && s.inflight > 0
    ensures var s' := Step(spec, s, DrainMove(s, answers));
            && s'.phase.Draining? && Distance(s') < Distance(s)
            && s'.flushReply == s.flushReply && s'.epoch == s.epoch
  {
  }

  /** In a drain the in-flight count is a measure: nothing raises it and each applied completion lowers it. */
  lemma DrainMeasure<Req, Key, Val, Resp, Ctx, Side>(
    spec: FetchSpec<Req, Key, Val, Resp, Ctx, Side>, s: State<Req, Key, Val, Resp, Ctx, Side>,
    a: Action<Req, Resp, Side>)
    requires Accounted(s) && s.phase.Draining?
    ensures var s' := Step(spec, s, a);
            && s'.inflight == (if a.Complete? && s.completionRx != [] then s.inflight - 1 else s.inflight)
            && (s'.phase.Draining? <==> !(a.EndFlush? && (s.inflight == 0 || a.timedOut)))
  {
  }

  /** From any point of a drain, whatever the RPC answers, there is a schedule that ends the flush
      without its timeout. */
  lemma {:induction false} DrainCanFinish<Req, Key, Val, Resp, Ctx, Side>(
    spec: FetchSpec<Req, Key, Val, Resp, Ctx, Side>, s: State<Req, Key, Val, Resp, Ctx, Side>,
    answers: nat -> Result<Resp>)
    returns (script: seq<Action<Req, Resp, Side>>)
    requires Accounted(s) && s.phase.Draining?
    ensures var s' := Exec(spec, s, script);
            s'.phase.Idle? && s'.inflight == 0 && s'.flushReply.Some? && s'.epoch == s.epoch + 1
    ensures forall a :: a in script ==> a.FinishFetch? || a.SendCompletion? || a.Complete? || a == EndFlush(false)
    decreases Distance(s)
  {
    var a := DrainMove(s, answers);
    var s' := Step(spec, s, a);
    assert Exec(spec, s, [a]) == s' by {
      assert [a][..0] == [];
    }
    if s.inflight > 0 {
      DrainMoves(spec, s, answers);
      AccountingStep(spec, s, a);
      var rest := DrainCanFinish(spec, s', answers);
      script := [a] + rest;
      ExecAppend(spec, s, [a], rest);
    } else {
      script := [a];
    }
  }

  // ---------------------------------------------------------------------------------------------
  // One tag per epoch

  /** A step either stays in the epoch and keeps the tag, or opens a later epoch. */
  lemma EpochStep<Req, Key, Val, Resp, Ctx, Side>(
    spec: FetchSpec<Req, Key, Val, Resp, Ctx, Side>, s: State<Req, Key, Val, Resp, Ctx, Side>,
    a: Action<Req, Resp, Side>)
    ensures var s' := Step(spec, s, a);
            s'.epoch > s.epoch || (s'.epoch == s.epoch && s'.cacheHash == s.cacheHash)
  {
  }

  /** Two moments of one run that share an epoch share the tag, across any tags in between. */
  lemma {:induction false} EpochHasOneTag<Req, Key, Val, Resp, Ctx, Side>(
    spec: FetchSpec<Req, Key, Val, Resp, Ctx, Side>, s: State<Req, Key, Val, Resp, Ctx, Side>,
    script: seq<Action<Req, Resp, Side>>)
    ensures var s' := Exec(spec, s, script);
            s'.epoch > s.epoch || (s'.epoch == s.epoch && s'.cacheHash == s.cacheHash)
    decreases |script|
  {
    if script == [] {
    } else {
      EpochHasOneTag(spec, s, script[..|script| - 1]);
      EpochStep(spec, Exec(spec, s, script[..|script| - 1]), script[|script| - 1]);
    }
  }

  // ---------------------------------------------------------------------------------------------
  // Provenance

  /** The tag a guarded manager's cache stands for; an unguarded one has none. */
  function CacheTag<Req, Key, Val, Resp, Ctx, Side>(
    spec: FetchSpec<Req, Key, Val, Resp, Ctx, Side>, hash: B256): Option<B256>
  {
    if spec.guarded then Some(hash) else None
  }

  /** A fetch in flight: what it is for was asked, its epoch is not in the future, and if its epoch is
      the current one its tag is the cache's. */
  ghost predicate FetchOk<Req, Key, Val, Resp, Ctx, Side>(
    spec: FetchSpec<Req, Key, Val, Resp, Ctx, Side>, s: State<Req, Key, Val, Resp, Ctx, Side>,
    asked: Message<Req> -> bool, waiter: Message<Req>, key: Key, epoch: nat)
  {
    && asked(waiter)
    && key == spec.key(waiter.request)
    && epoch <= s.epoch
    && (epoch == s.epoch ==> spec.tag(waiter.request) == CacheTag(spec, s.cacheHash))
  }

  ghost predicate ResultFits<Req, Key, Val, Resp, Ctx, Side>(
    spec: FetchSpec<Req, Key, Val, Resp, Ctx, Side>, fits: (Option<B256>, Key, Resp) -> bool,
    req: Req, result: Result<Resp>)
  {
    result.Ok? ==> fits(spec.tag(req), spec.key(req), result.value)
  }

  ghost predicate CacheFits<Req, Key, Val, Resp, Ctx, Side>(
    spec: FetchSpec<Req, Key, Val, Resp, Ctx, Side>, fits: (Option<B256>, Key, Resp) -> bool,
    hash: B256, data: map<Key, Val>)
  {
    forall k :: k in data ==> fits(CacheTag(spec, hash), k, spec.hit(data[k]))
  }

  /** `fits` relates a tag and a key to the answers the RPC gives for them; `asked` says which requests
      the readers make. Both are arbitrary, so what holds here holds of any account of the RPC. */
  ghost predicate Provenance<Req, Key, Val, Resp, Ctx, Side>(
    spec: FetchSpec<Req, Key, Val, Resp, Ctx, Side>, s: State<Req, Key, Val, Resp, Ctx, Side>,
    asked: Message<Req> -> bool, fits: (Option<B256>, Key, Resp) -> bool)
  {
    && (forall m :: m in s.fetchRx ==> asked(m))
    && (s.phase.Serving? ==> asked(s.phase.msg))
    && (s.phase.Acquiring? ==> asked(s.phase.msg)
                               && spec.tag(s.phase.msg.request) == CacheTag(spec, s.cacheHash))
    && (forall t :: t in s.running ==> FetchOk(spec, s, asked, t.waiter, t.key, t.epoch))
    && (forall d :: d in s.sending ==> FetchOk(spec, s, asked, d.waiter, d.key, d.epoch)
                                       && ResultFits(spec, fits, d.waiter.request, d.result))
    && (forall d :: d in s.completionRx ==> FetchOk(spec, s, asked, d.waiter, d.key, d.epoch)
                                            && ResultFits(spec, fits, d.waiter.request, d.result))
    && (forall r :: r in s.replies ==> asked(r.waiter) && ResultFits(spec, fits, r.waiter.request, r.result))
    && CacheFits(spec, fits, s.cacheHash, s.cache)
    && (s.flushReply.Some? ==> CacheFits(spec, fits, s.flushReply.value.blockHash, s.flushReply.value.data))
  }

  lemma InitProvenance<Req, Key, Val, Resp, Ctx, Side>(
    spec: FetchSpec<Req, Key, Val, Resp, Ctx, Side>, ctx: Ctx, limit: nat,
    asked: Message<Req> -> bool, fits: (Option<B256>, Key, Resp) -> bool)
    ensures Provenance(spec, Init(ctx, limit), asked, fits)
  {
  }

  /** The environment's side of the bargain for one action: readers only send what is asked, and the RPC
      answers a request with something that fits it. */
  ghost predicate Honest<Req, Key, Val, Resp, Ctx, Side>(
    spec: FetchSpec<Req, Key, Val, Resp, Ctx, Side>, s: State<Req, Key, Val, Resp, Ctx, Side>,
    a: Action<Req, Resp, Side>,
    asked: Message<Req> -> bool, fits: (Option<B256>, Key, Resp) -> bool)
  {
    match a
    case Receive(msg) => asked(msg)
    case FinishFetch(i, result) =>
      i < |s.running| ==> ResultFits(spec, fits, s.running[i].waiter.request, result)
    case _ => true
  }

  ghost predicate HonestRun<Req, Key, Val, Resp, Ctx, Side>(
    spec: FetchSpec<Req, Key, Val, Resp, Ctx, Side>, s: State<Req, Key, Val, Resp, Ctx, Side>,
    script: seq<Action<Req, Resp, Side>>,
    asked: Message<Req> -> bool, fits: (Option<B256>, Key, Resp) -> bool)
  {
    forall n: nat :: n < |script| ==> Honest(spec, Exec(spec, s, script[..n]), script[n], asked, fits)
  }

  lemma ServeProvenance<Req(!new), Key, Val, Resp(!new), Ctx, Side>(
    spec: FetchSpec<Req, Key, Val, Resp, Ctx, Side>, s: State<Req, Key, Val, Resp, Ctx, Side>,
    asked: Message<Req> -> bool, fits: (Option<B256>, Key, Resp) -> bool)
    requires Lawful(spec) && Provenance(spec, s, asked, fits)
    ensures Provenance(spec, Step(spec, s, Serve), asked, fits)
  {
    if s.phase.Serving? {
      var msg := s.phase.msg;
      var r := Retag(spec, s, msg.request);
      assert Provenance(spec, r, asked, fits) && spec.tag(msg.request) == CacheTag(spec, r.cacheHash);
      var key := spec.key(msg.request);
      if key in r.cache {
        var reply := Reply(msg, Ok(spec.hit(r.cache[key])), Cached);
        assert ResultFits(spec, fits, msg.request, reply.result);
        assert Step(spec, s, Serve).replies == s.replies + [reply];
      }
    }
  }

  lemma TasksProvenance<Req(!new), Key, Val, Resp(!new), Ctx, Side>(
    spec: FetchSpec<Req, Key, Val, Resp, Ctx, Side>, s: State<Req, Key, Val, Resp, Ctx, Side>,
    a: Action<Req, Resp, Side>,
    asked: Message<Req> -> bool, fits: (Option<B256>, Key, Resp) -> bool)
    requires a.FinishFetch? || a.SendCompletion?
    requires Provenance(spec, s, asked, fits) && Honest(spec, s, a, asked, fits)
    ensures Provenance(spec, Step(spec, s, a), asked, fits)
  {
    if a.FinishFetch? && a.task < |s.running| {
      WithoutSplits(s.running, a.task);
      assert FetchOk(spec, s, asked, s.running[a.task].waiter, s.running[a.task].key, s.running[a.task].epoch);
    }
    if a.SendCompletion? && a.done < |s.sending| {
      WithoutSplits(s.sending, a.done);
      assert s.sending[a.done] in s.sending;
    }
  }

  lemma CompleteProvenance<Req(!new), Key, Val, Resp(!new), Ctx, Side>(
    spec: FetchSpec<Req, Key, Val, Resp, Ctx, Side>, s: State<Req, Key, Val, Resp, Ctx, Side>,
    asked: Message<Req> -> bool, fits: (Option<B256>, Key, Resp) -> bool)
    requires Lawful(spec) && Provenance(spec, s, asked, fits)
    ensures Provenance(spec, Step(spec, s, Complete), asked, fits)
  {
    if (s.phase.Idle? || (s.phase.Draining? && s.inflight > 0)) && s.completionRx != [] {
      var d := s.completionRx[0];
      assert FetchOk(spec, s, asked, d.waiter, d.key, d.epoch) && ResultFits(spec, fits, d.waiter.request, d.result);
      var s' := Step(spec, s, Complete);
      assert spec.tag(d.waiter.request).Some? == spec.guarded;
      assert CacheFits(spec, fits, s'.cacheHash, s'.cache);
      assert s'.replies == s.replies + [Reply(d.waiter, d.result, Fetched(d.epoch))];
    }
  }

  lemma {:induction false} ProvenanceStep<Req(!new), Key, Val, Resp(!new), Ctx, Side>(
    spec: FetchSpec<Req, Key, Val, Resp, Ctx, Side>, s: State<Req, Key, Val, Resp, Ctx, Side>,
    a: Action<Req, Resp, Side>,
    asked: Message<Req> -> bool, fits: (Option<B256>, Key, Resp) -> bool)
    requires Lawful(spec) && Provenance(spec, s, asked, fits) && Honest(spec, s, a, asked, fits)
    ensures Provenance(spec, Step(spec, s, a), asked, fits)
  {
    match a
    case Serve => ServeProvenance(spec, s, asked, fits);
    case FinishFetch(_, _) => TasksProvenance(spec, s, a, asked, fits);
    case SendCompletion(_) => TasksProvenance(spec, s, a, asked, fits);
    case Complete => CompleteProvenance(spec, s, asked, fits);
    case _ =>
  }

  lemma {:induction false} ExecProvenance<Req(!new), Key, Val, Resp(!new), Ctx, Side>(
    spec: FetchSpec<Req, Key, Val, Resp, Ctx, Side>, s: State<Req, Key, Val, Resp, Ctx, Side>,
    script: seq<Action<Req, Resp, Side>>,
    asked: Message<Req> -> bool, fits: (Option<B256>, Key, Resp) -> bool)
    requires Lawful(spec) && Provenance(spec, s, asked, fits) && HonestRun(spec, s, script, asked, fits)
    ensures Provenance(spec, Exec(spec, s, script), asked, fits)
    decreases |script|
  {
    if script == [] {
    } else {
      var front := script[..|script| - 1];
      forall n: nat | n < |front|
        ensures Honest(spec, Exec(spec, s, front[..n]), front[n], asked, fits)
      {
        assert front[..n] == script[..n];
      }
      ExecProvenance(spec, s, front, asked, fits);
      assert Honest(spec, Exec(spec, s, script[..|script| - 1]), script[|script| - 1], asked, fits);
      ProvenanceStep(spec, Exec(spec, s, front), script[|script| - 1], asked, fits);
    }
  }

  /** Asking more never hurts. */
  lemma ProvenanceWeaken<Req(!new), Key, Val, Resp, Ctx, Side>(
    spec: FetchSpec<Req, Key, Val, Resp, Ctx, Side>, s: State<Req, Key, Val, Resp, Ctx, Side>,
    asked: Message<Req> -> bool, asked': Message<Req> -> bool, fits: (Option<B256>, Key, Resp) -> bool)
    requires Provenance(spec, s, asked, fits) && forall m :: asked(m) ==> asked'(m)
    ensures Provenance(spec, s, asked', fits)
  {
    forall t | t in s.running
      ensures FetchOk(spec, s, asked', t.waiter, t.key, t.epoch)
    {
      assert FetchOk(spec, s, asked, t.waiter, t.key, t.epoch);
    }
    forall d | d in s.sending || d in s.completionRx
      ensures FetchOk(spec, s, asked', d.waiter, d.key, d.epoch) && ResultFits(spec, fits, d.waiter.request, d.result)
    {
      assert FetchOk(spec, s, asked, d.waiter, d.key, d.epoch);
    }
  }
}
