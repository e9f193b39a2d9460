/** The epoch-guarded fetch manager as a state machine.

    One action is one atomic section of the source: the stretch of the manager's loop between two
    awaits, or one visible move of a spawned fetch task. `Step` is total: an action that is not
    enabled leaves the state alone, so a property of every list of actions is a property of every
    interleaving. */
module ManagerCore {
  import opened Types

  const COMPLETION_CHANNEL_DEPTH: nat := 4096

  /** The static contract of one kind of fetch. */
  datatype FetchSpec<!Req, !Key, !Val, !Resp, !Ctx, !Side> = FetchSpec(
    guarded: bool,
    tag: Req -> Option<B256>,
    key: Req -> Key,
    hit: Val -> Resp,
    store: Resp -> Option<Val>,
    onSuccess: (Ctx, Key, Resp) -> Ctx,
    onSide: (Ctx, Side) -> Ctx)

  /** A guarded spec tags every request and an unguarded one tags none; what is stored is answered back. */
  ghost predicate Lawful<Req(!new), Key, Val, Resp(!new), Ctx, Side>(spec: FetchSpec<Req, Key, Val, Resp, Ctx, Side>) {
    && (forall r: Req :: spec.tag(r).Some? == spec.guarded)
    && (forall p: Resp :: spec.store(p).Some? ==> spec.hit(spec.store(p).value) == p)
  }

  /** A waiting reader: its reply channel (named by `id`) and what it asked for. */
  datatype Message<Req> = Message(id: nat, request: Req)

  /** A spawned fetch waiting for the RPC; it holds a permit. `ctx` is what the future captured. */
  datatype Task<Req, Key, Ctx> = Task(waiter: Message<Req>, key: Key, epoch: nat, ctx: Ctx)

  /** A fetch that has its result and has dropped its permit. */
  datatype Done<Req, Key, Resp> = Done(waiter: Message<Req>, key: Key, epoch: nat, result: Result<Resp>)

  datatype Via = Cached | Fetched(epoch: nat)

  datatype Reply<Req, Resp> = Reply(waiter: Message<Req>, result: Result<Resp>, via: Via)

  /** Where the manager's loop stands. */
  datatype Phase<Req> =
    | Idle                         // in select!
    | Serving(msg: Message<Req>)   // about to look up msg
    | Acquiring(msg: Message<Req>) // awaiting a permit for msg
    | Draining                     // inside a flush, awaiting completions

  datatype State<Req, Key, Val, Resp, Ctx, Side> = State(
    received: set<nat>,
    fetchRx: seq<Message<Req>>,
    sideRx: seq<Side>,
    flushRequested: bool,
    flushReply: Option<TaggedCache<Key, Val>>,
    phase: Phase<Req>,
    ctx: Ctx,
    cacheHash: B256,
    cache: map<Key, Val>,
    limit: nat,
    permits: nat,
    epoch: nat,
    inflight: int,
    running: seq<Task<Req, Key, Ctx>>,
    sending: seq<Done<Req, Key, Resp>>,
    completionRx: seq<Done<Req, Key, Resp>>,
    replies: seq<Reply<Req, Resp>>)

  datatype Action<Req, Resp, Side> =
      // the outside: readers, the other manager, the writer
    | Receive(msg: Message<Req>)
    | SideSend(side: Side)
    | RequestFlush
      // the spawned fetch tasks
    | FinishFetch(task: nat, result: Result<Resp>)
    | SendCompletion(done: nat)
      // the manager's own loop
    | TakeRequest
    | Serve
    | Spawn
    | TakeSide
    | Complete
    | BeginFlush
    | EndFlush(timedOut: bool)

  /** Moves that are not the manager's own. */
  predicate IsEnvironment<Req, Resp, Side>(a: Action<Req, Resp, Side>) {
    a.Receive? || a.SideSend? || a.FinishFetch? || a.SendCompletion?
  }

  /** The configured limit, or the end of the allowed range it is beyond. */
  function ClampConcurrency(n: nat): (limit: nat)
    ensures 1 <= limit <= 1024
    ensures limit == n || (n < 1 && limit == 1) || (n > 1024 && limit == 1024)
  {
    if n < 1 then 1 else if n > 1024 then 1024 else n
  }

  function Init<Req, Key, Val, Resp, Ctx, Side>(ctx: Ctx, limit: nat): State<Req, Key, Val, Resp, Ctx, Side> {
    State({}, [], [], false, None, Idle, ctx, ZERO_HASH, map[], limit, limit, 0, 0, [], [], [], [])
  }

  function Without<T>(q: seq<T>, i: nat): seq<T>
    requires i < |q|
  {
    q[..i] + q[i + 1..]
  }

  /** `drain_side`: hand every queued side message to the context, oldest first. */
  function FoldSide<Req, Key, Val, Resp, Ctx, Side>(
    spec: FetchSpec<Req, Key, Val, Resp, Ctx, Side>, ctx: Ctx, q: seq<Side>): Ctx
  {
    if q == [] then ctx else FoldSide(spec, spec.onSide(ctx, q[0]), q[1..])
  }

  /** Back to `try_recv`: go on with the next queued request, or return to the select. */
  function Next<Req, Key, Val, Resp, Ctx, Side>(s: State<Req, Key, Val, Resp, Ctx, Side>)
    : State<Req, Key, Val, Resp, Ctx, Side>
  {
    if s.fetchRx == [] then s.(phase := Idle)
    else s.(phase := Serving(s.fetchRx[0]), fetchRx := s.fetchRx[1..])
  }

  /** A request under another tag empties the cache and opens a new epoch. */
  function Retag<Req, Key, Val, Resp, Ctx, Side>(
    spec: FetchSpec<Req, Key, Val, Resp, Ctx, Side>, s: State<Req, Key, Val, Resp, Ctx, Side>, req: Req)
    : State<Req, Key, Val, Resp, Ctx, Side>
  {
    match spec.tag(req)
    case Some(tag) =>
      if s.cacheHash != tag then s.(cache := map[], cacheHash := tag, epoch := s.epoch + 1) else s
    case None => s
  }

  /** The lookup half of the fetch branch: answer from the cache, or go for a permit. */
  function ServeMessage<Req, Key, Val, Resp, Ctx, Side>(
    spec: FetchSpec<Req, Key, Val, Resp, Ctx, Side>, s: State<Req, Key, Val, Resp, Ctx, Side>, msg: Message<Req>)
    : State<Req, Key, Val, Resp, Ctx, Side>
  {
    var r := Retag(spec, s, msg.request);
    var key := spec.key(msg.request);
    if key in r.cache
    then Next(r.(replies := r.replies + [Reply(msg, Ok(spec.hit(r.cache[key])), Cached)]))
    else r.(phase := Acquiring(msg))
  }

  /** The spawn half of the fetch branch, once a permit is held. */
  function SpawnFetch<Req, Key, Val, Resp, Ctx, Side>(
    spec: FetchSpec<Req, Key, Val, Resp, Ctx, Side>, s: State<Req, Key, Val, Resp, Ctx, Side>, msg: Message<Req>)
    : State<Req, Key, Val, Resp, Ctx, Side>
    requires s.permits > 0
  {
    Next(s.(permits := s.permits - 1,
            inflight := s.inflight + 1,
            running := s.running + [Task(msg, spec.key(msg.request), s.epoch, s.ctx)]))
  }

  /** `apply_completion`: always answer the caller, store only what belongs to this epoch. */
  function ApplyCompletion<Req, Key, Val, Resp, Ctx, Side>(
    spec: FetchSpec<Req, Key, Val, Resp, Ctx, Side>, s: State<Req, Key, Val, Resp, Ctx, Side>, d: Done<Req, Key, Resp>)
    : State<Req, Key, Val, Resp, Ctx, Side>
  {
    var stored :=
      if d.result.Ok? && (!spec.guarded || d.epoch == s.epoch) && spec.store(d.result.value).Some?
      then s.cache[d.key := spec.store(d.result.value).value]
      else s.cache;
    s.(inflight := s.inflight - 1,
       ctx := if d.result.Ok? then spec.onSuccess(s.ctx, d.key, d.result.value) else s.ctx,
       cache := stored,
       replies := s.replies + [Reply(d.waiter, d.result, Fetched(d.epoch))])
  }

  /** The end of a flush: hand the cache over, reset the tag, open a new epoch. */
  function HandOver<Req, Key, Val, Resp, Ctx, Side>(s: State<Req, Key, Val, Resp, Ctx, Side>)
    : State<Req, Key, Val, Resp, Ctx, Side>
  {
    s.(phase := Idle,
       flushReply := Some(TaggedCache(s.cacheHash, s.cache)),
       cacheHash := ZERO_HASH,
       cache := map[],
       epoch := s.epoch + 1)
  }

  function Step<Req, Key, Val, Resp, Ctx, Side>(
    spec: FetchSpec<Req, Key, Val, Resp, Ctx, Side>, s: State<Req, Key, Val, Resp, Ctx, Side>,
    a: Action<Req, Resp, Side>)
    : State<Req, Key, Val, Resp, Ctx, Side>
  {
    match a
    case Receive(msg) =>
      if msg.id in s.received then s
      else s.(received := s.received + {msg.id}, fetchRx := s.fetchRx + [msg])
    case SideSend(side) =>
      s.(sideRx := s.sideRx + [side])
    case RequestFlush =>
      if s.flushRequested || s.phase.Draining? then s
      else s.(flushRequested := true, flushReply := None)
    case FinishFetch(i, result) =>
      if i < |s.running| then
        var t := s.running[i];
        s.(running := Without(s.running, i),
           permits := s.permits + 1,
           sending := s.sending + [Done(t.waiter, t.key, t.epoch, result)])
      else s
    case SendCompletion(i) =>
      if i < |s.sending| && |s.completionRx| < COMPLETION_CHANNEL_DEPTH then
        s.(sending := Without(s.sending, i), completionRx := s.completionRx + [s.sending[i]])
      else s
    case TakeRequest =>
      if s.phase.Idle? && s.fetchRx != [] then
        Next(s.(ctx := FoldSide(spec, s.ctx, s.sideRx), sideRx := []))
      else s
    case Serve =>
      if s.phase.Serving? then ServeMessage(spec, s, s.phase.msg) else s
    case Spawn =>
      if s.phase.Acquiring? && s.permits > 0 then SpawnFetch(spec, s, s.phase.msg) else s
    case TakeSide =>
      if s.phase.Idle? then s.(ctx := FoldSide(spec, s.ctx, s.sideRx), sideRx := []) else s
    case Complete =>
      if (s.phase.Idle? || (s.phase.Draining? && s.inflight > 0)) && s.completionRx != [] then
        ApplyCompletion(spec, s.(completionRx := s.completionRx[1..]), s.completionRx[0])
      else s
    case BeginFlush =>
      if s.phase.Idle? && s.flushRequested then s.(phase := Draining, flushRequested := false) else s
    case EndFlush(timedOut) =>
      if s.phase.Draining? && (s.inflight <= 0 || timedOut) then HandOver(s) else s
  }

  /** A whole run: the scheduler's choices, in order. */
  function Exec<Req, Key, Val, Resp, Ctx, Side>(
    spec: FetchSpec<Req, Key, Val, Resp, Ctx, Side>, s: State<Req, Key, Val, Resp, Ctx, Side>,
    script: seq<Action<Req, Resp, Side>>)
    : State<Req, Key, Val, Resp, Ctx, Side>
    decreases |script|
  {
    if script == [] then s else Step(spec, Exec(spec, s, script[..|script| - 1]), script[|script| - 1])
  }

  lemma {:induction false} ExecAppend<Req, Key, Val, Resp, Ctx, Side>(
    spec: FetchSpec<Req, Key, Val, Resp, Ctx, Side>, s: State<Req, Key, Val, Resp, Ctx, Side>,
    a: seq<Action<Req, Resp, Side>>, b: seq<Action<Req, Resp, Side>>)
    ensures Exec(spec, s, a + b) == Exec(spec, Exec(spec, s, a), b)
    decreases |b|
  {
    if b == [] {
      assert a + b == a;
    } else {
      var front := b[..|b| - 1];
      assert (a + b)[..|a + b| - 1] == a + front;
      ExecAppend(spec, s, a, front);
    }
  }
}
