/** The flush barrier, and the manager seen from outside: what a flush hands over is exactly the work
    of its epoch, and every answer is one the RPC gave for that tag and key. */
module FlushProofs {
  import opened Types
  import opened ManagerCore
  import opened ManagerProofs

  /** The reply reports a success of this epoch that the spec stores. */
  predicate Produced<Req, Key, Val, Resp, Ctx, Side>(
    spec: FetchSpec<Req, Key, Val, Resp, Ctx, Side>, r: Reply<Req, Resp>, epoch: nat)
  {
    r.via == Fetched(epoch) && r.result.Ok? && spec.store(r.result.value).Some?
  }

  ghost predicate Anything<Req>(m: Message<Req>) { true }

  ghost predicate AnyAnswer<Key, Resp>(tag: Option<B256>, key: Key, resp: Resp) { true }

  /** The cache holds the storable successes of the current epoch: all of them, and nothing else. */
  ghost predicate EpochExact<Req, Key, Val, Resp, Ctx, Side>(
    spec: FetchSpec<Req, Key, Val, Resp, Ctx, Side>, s: State<Req, Key, Val, Resp, Ctx, Side>)
  {
    && (forall r :: r in s.replies && r.via.Fetched? ==> r.via.epoch <= s.epoch)
    && (forall r :: r in s.replies && Produced(spec, r, s.epoch) ==>
          spec.key(r.waiter.request) in s.cache && spec.tag(r.waiter.request) == CacheTag(spec, s.cacheHash))
    && (forall k :: k in s.cache ==>
          exists r :: r in s.replies && Produced(spec, r, s.epoch) && spec.key(r.waiter.request) == k
                      && spec.store(r.result.value) == Some(s.cache[k]))
  }

  lemma RetagExact<Req, Key, Val, Resp, Ctx, Side>(
    spec: FetchSpec<Req, Key, Val, Resp, Ctx, Side>, s: State<Req, Key, Val, Resp, Ctx, Side>, req: Req)
    requires EpochExact(spec, s)
    ensures EpochExact(spec, Retag(spec, s, req))
  {
  }

  lemma CachedReplyExact<Req, Key, Val, Resp, Ctx, Side>(
    spec: FetchSpec<Req, Key, Val, Resp, Ctx, Side>, s: State<Req, Key, Val, Resp, Ctx, Side>, r: Reply<Req, Resp>)
    requires EpochExact(spec, s) && r.via.Cached?
    ensures EpochExact(spec, s.(replies := s.replies + [r]))
  {
    var s' := s.(replies := s.replies + [r]);
    forall k | k in s'.cache
      ensures exists q :: q in s'.replies && Produced(spec, q, s'.epoch) && spec.key(q.waiter.request) == k
                          && spec.store(q.result.value) == Some(s'.cache[k])
    {
      var q :| q in s.replies && Produced(spec, q, s.epoch) && spec.key(q.waiter.request) == k
               && spec.store(q.result.value) == Some(s.cache[k]);
      assert q in s'.replies;
    }
  }

  lemma CompletionExact<Req, Key, Val, Resp, Ctx, Side>(
    spec: FetchSpec<Req, Key, Val, Resp, Ctx, Side>, s: State<Req, Key, Val, Resp, Ctx, Side>, d: Done<Req, Key, Resp>)
    requires spec.guarded && EpochExact(spec, s) && d.epoch <= s.epoch && d.key == spec.key(d.waiter.request)
    requires d.epoch == s.epoch ==> spec.tag(d.waiter.request) == CacheTag(spec, s.cacheHash)
    ensures EpochExact(spec, ApplyCompletion(spec, s, d))
  {
    var s' := ApplyCompletion(spec, s, d);
    var r := Reply(d.waiter, d.result, Fetched(d.epoch));
    assert s'.replies == s.replies + [r];
    assert r in s'.replies;
    forall k | k in s'.cache
      ensures exists q :: q in s'.replies && Produced(spec, q, s'.epoch) && spec.key(q.waiter.request) == k
                          && spec.store(q.result.value) == Some(s'.cache[k])
    {
      if k == d.key && Produced(spec, r, s.epoch) {
        assert spec.store(r.result.value) == Some(s'.cache[k]);
      } else {
        var q :| q in s.replies && Produced(spec, q, s.epoch) && spec.key(q.waiter.request) == k
                 && spec.store(q.result.value) == Some(s.cache[k]);
        assert q in s'.replies;
      }
    }
  }

  lemma ServeExact<Req(!new), Key, Val, Resp(!new), Ctx, Side>(
    spec: FetchSpec<Req, Key, Val, Resp, Ctx, Side>, s: State<Req, Key, Val, Resp, Ctx, Side>)
    requires EpochExact(spec, s) && s.phase.Serving?
    ensures EpochExact(spec, Step(spec, s, Serve))
  {
    var r := Retag(spec, s, s.phase.msg.request);
    RetagExact(spec, s, s.phase.msg.request);
    var key := spec.key(s.phase.msg.request);
    if key in r.cache {
      CachedReplyExact(spec, r, Reply(s.phase.msg, Ok(spec.hit(r.cache[key])), Cached));
    }
  }

  lemma {:induction false} ExactStep<Req(!new), Key, Val, Resp(!new), Ctx, Side>(
    spec: FetchSpec<Req, Key, Val, Resp, Ctx, Side>, s: State<Req, Key, Val, Resp, Ctx, Side>,
    a: Action<Req, Resp, Side>)
    requires spec.guarded && EpochExact(spec, s) && Provenance(spec, s, Anything, AnyAnswer)
    ensures EpochExact(spec, Step(spec, s, a))
  {
    if a.Serve? && s.phase.Serving? {
      ServeExact(spec, s);
    } else if a.Complete? && s.completionRx != [] {
      var d := s.completionRx[0];
      assert FetchOk(spec, s, Anything, d.waiter, d.key, d.epoch);
      CompletionExact(spec, s.(completionRx := s.completionRx[1..]), d);
    } else {
      OtherStep(spec, s, a);
      SameExact(spec, s, Step(spec, s, a));
    }
  }

  /** A move that neither serves nor completes gives no reply, and keeps the cache or opens a new one. */
  lemma OtherStep<Req, Key, Val, Resp, Ctx, Side>(
    spec: FetchSpec<Req, Key, Val, Resp, Ctx, Side>, s: State<Req, Key, Val, Resp, Ctx, Side>,
    a: Action<Req, Resp, Side>)
    requires (a.Serve? ==> !s.phase.Serving?) && (a.Complete? ==> s.completionRx == [])
    ensures SameOrOpened(s, Step(spec, s, a))
  {
  }

  ghost predicate SameOrOpened<Req, Key, Val, Resp, Ctx, Side>(
    s: State<Req, Key, Val, Resp, Ctx, Side>, s': State<Req, Key, Val, Resp, Ctx, Side>)
  {
    && s'.replies == s.replies
    && (|| (s'.epoch == s.epoch && s'.cache == s.cache && s'.cacheHash == s.cacheHash)
        || (s'.epoch == s.epoch + 1 && s'.cache == map[]))
  }

  lemma SameExact<Req, Key, Val, Resp, Ctx, Side>(
    spec: FetchSpec<Req, Key, Val, Resp, Ctx, Side>, s: State<Req, Key, Val, Resp, Ctx, Side>,
    s': State<Req, Key, Val, Resp, Ctx, Side>)
    requires EpochExact(spec, s) && SameOrOpened(s, s')
    ensures EpochExact(spec, s')
  {
  }

  lemma {:induction false} ExecExact<Req(!new), Key, Val, Resp(!new), Ctx, Side>(
    spec: FetchSpec<Req, Key, Val, Resp, Ctx, Side>, ctx: Ctx, limit: nat, script: seq<Action<Req, Resp, Side>>)
    requires Lawful(spec) && spec.guarded
    ensures var s := Exec(spec, Init(ctx, limit), script);
            EpochExact(spec, s) && Provenance(spec, s, Anything, AnyAnswer)
    decreases |script|
  {
    if script == [] {
    } else {
      var front := script[..|script| - 1];
      ExecExact(spec, ctx, limit, front);
      var s := Exec(spec, Init(ctx, limit), front);
      assert Honest(spec, s, script[|script| - 1], Anything, AnyAnswer);
      ProvenanceStep(spec, s, script[|script| - 1], Anything, AnyAnswer);
      ExactStep(spec, s, script[|script| - 1]);
    }
  }

  // ---------------------------------------------------------------------------------------------
  // What a cache is, answer by answer

  /** The reply carries a fetched value the manager stores: of this epoch, or of any when unguarded. */
  predicate Contributes<Req, Key, Val, Resp, Ctx, Side>(
    spec: FetchSpec<Req, Key, Val, Resp, Ctx, Side>, r: Reply<Req, Resp>, epoch: nat)
  {
    r.via.Fetched? && r.result.Ok? && spec.store(r.result.value).Some? && (!spec.guarded || r.via.epoch == epoch)
  }

  /** The contributions of some replies in the order they were given, later ones winning. */
  function Collected<Req, Key(==), Val, Resp, Ctx, Side>(
    spec: FetchSpec<Req, Key, Val, Resp, Ctx, Side>, q: seq<Reply<Req, Resp>>, epoch: nat): map<Key, Val>
    decreases |q|
  {
    if q == [] then map[]
    else
      var front, last := Collected(spec, q[..|q| - 1], epoch), q[|q| - 1];
      if Contributes(spec, last, epoch)
      then front[spec.key(last.waiter.request) := spec.store(last.result.value).value]
      else front
  }

  lemma {:induction false} CollectedKeys<Req, Key, Val, Resp, Ctx, Side>(
    spec: FetchSpec<Req, Key, Val, Resp, Ctx, Side>, q: seq<Reply<Req, Resp>>, epoch: nat, k: Key)
    ensures k in Collected(spec, q, epoch) <==>
              exists r :: r in q && Contributes(spec, r, epoch) && spec.key(r.waiter.request) == k
    decreases |q|
  {
    if q == [] {
    } else {
      var front, last := q[..|q| - 1], q[|q| - 1];
      CollectedKeys(spec, front, epoch, k);
      assert q == front + [last];
      assert forall r :: r in q <==> r in front || r == last;
    }
  }

  lemma CollectedPush<Req, Key, Val, Resp, Ctx, Side>(
    spec: FetchSpec<Req, Key, Val, Resp, Ctx, Side>, q: seq<Reply<Req, Resp>>, m: nat, r: Reply<Req, Resp>, epoch: nat)
    requires m <= |q|
    ensures Collected(spec, (q + [r])[m..], epoch)
            == if Contributes(spec, r, epoch)
               then Collected(spec, q[m..], epoch)[spec.key(r.waiter.request) := spec.store(r.result.value).value]
               else Collected(spec, q[m..], epoch)
  {
    assert (q + [r])[m..] == q[m..] + [r];
    assert (q[m..] + [r])[..|q[m..]|] == q[m..];
  }

  /** How many replies had been given when the current cache was opened, by a flush or another tag. */
  function OpenedAt<Req, Key, Val, Resp, Ctx, Side>(
    spec: FetchSpec<Req, Key, Val, Resp, Ctx, Side>, s: State<Req, Key, Val, Resp, Ctx, Side>,
    script: seq<Action<Req, Resp, Side>>): nat
    decreases |script|
  {
    if script == [] then 0
    else
      var front, a := script[..|script| - 1], script[|script| - 1];
      Reopened(Exec(spec, s, front), Step(spec, Exec(spec, s, front), a), OpenedAt(spec, s, front))
  }

  function Reopened<Req, Key, Val, Resp, Ctx, Side>(
    s: State<Req, Key, Val, Resp, Ctx, Side>, s': State<Req, Key, Val, Resp, Ctx, Side>, mark: nat): nat
  {
    if s'.epoch == s.epoch then mark else |s'.replies|
  }

  ghost predicate IsCollected<Req, Key, Val, Resp, Ctx, Side>(
    spec: FetchSpec<Req, Key, Val, Resp, Ctx, Side>, s: State<Req, Key, Val, Resp, Ctx, Side>, mark: nat)
  {
    mark <= |s.replies| && s.cache == Collected(spec, s.replies[mark..], s.epoch)
  }

  lemma ServeCollected<Req, Key, Val, Resp, Ctx, Side>(
    spec: FetchSpec<Req, Key, Val, Resp, Ctx, Side>, s: State<Req, Key, Val, Resp, Ctx, Side>, mark: nat)
    requires IsCollected(spec, s, mark) && s.phase.Serving?
    ensures IsCollected(spec, Step(spec, s, Serve), Reopened(s, Step(spec, s, Serve), mark))
  {
    var r := Retag(spec, s, s.phase.msg.request);
    var key := spec.key(s.phase.msg.request);
    if key in r.cache {
      CollectedPush(spec, s.replies, mark, Reply(s.phase.msg, Ok(spec.hit(r.cache[key])), Cached), s.epoch);
    }
  }

  lemma CompletionCollected<Req, Key, Val, Resp, Ctx, Side>(
    spec: FetchSpec<Req, Key, Val, Resp, Ctx, Side>, s: State<Req, Key, Val, Resp, Ctx, Side>,
    d: Done<Req, Key, Resp>, mark: nat)
    requires IsCollected(spec, s, mark) && d.key == spec.key(d.waiter.request)
    ensures IsCollected(spec, ApplyCompletion(spec, s, d), mark)
  {
    CollectedPush(spec, s.replies, mark, Reply(d.waiter, d.result, Fetched(d.epoch)), s.epoch);
  }

  lemma {:induction false} CollectedStep<Req, Key, Val, Resp, Ctx, Side>(
    spec: FetchSpec<Req, Key, Val, Resp, Ctx, Side>, s: State<Req, Key, Val, Resp, Ctx, Side>,
    a: Action<Req, Resp, Side>, mark: nat)
    requires IsCollected(spec, s, mark) && Provenance(spec, s, Anything, AnyAnswer)
    ensures IsCollected(spec, Step(spec, s, a), Reopened(s, Step(spec, s, a), mark))
  {
    if a.Serve? && s.phase.Serving? {
      ServeCollected(spec, s, mark);
    } else if a.Complete? && s.completionRx != [] {
      var d := s.completionRx[0];
      assert FetchOk(spec, s, Anything, d.waiter, d.key, d.epoch);
      CompletionCollected(spec, s.(completionRx := s.completionRx[1..]), d, mark);
    }
  }

  /** In every interleaving the cache is exactly what was answered and stored since it was opened, the last
      answer for a key winning: guarded or not. */
  lemma {:induction false} ExecCollected<Req(!new), Key, Val, Resp(!new), Ctx, Side>(
    spec: FetchSpec<Req, Key, Val, Resp, Ctx, Side>, ctx: Ctx, limit: nat, script: seq<Action<Req, Resp, Side>>)
    requires Lawful(spec)
    ensures var s0: State<Req, Key, Val, Resp, Ctx, Side> := Init(ctx, limit);
            var s := Exec(spec, s0, script);
            IsCollected(spec, s, OpenedAt(spec, s0, script)) && Provenance(spec, s, Anything, AnyAnswer)
    decreases |script|
  {
    if script == [] {
    } else {
      var front, a := script[..|script| - 1], script[|script| - 1];
      ExecCollected(spec, ctx, limit, front);
      var s0: State<Req, Key, Val, Resp, Ctx, Side> := Init(ctx, limit);
      var s := Exec(spec, s0, front);
      CollectedStep(spec, s, a, OpenedAt(spec, s0, front));
      assert Honest(spec, s, a, Anything, AnyAnswer);
      ProvenanceStep(spec, s, a, Anything, AnyAnswer);
    }
  }

  /** An unguarded cache is opened by flushes alone. */
  lemma OnlyFlushesOpen<Req(!new), Key, Val, Resp(!new), Ctx, Side>(
    spec: FetchSpec<Req, Key, Val, Resp, Ctx, Side>, s: State<Req, Key, Val, Resp, Ctx, Side>,
    a: Action<Req, Resp, Side>)
    requires Lawful(spec) && !spec.guarded
    ensures Step(spec, s, a).epoch != s.epoch <==> a.EndFlush? && s.phase.Draining? && (s.inflight <= 0 || a.timedOut)
  {
    if s.phase.Serving? {
      assert spec.tag(s.phase.msg.request).None?;
    }
  }

  /** The barrier. At the end of any flush of any run the cache handed over is exactly what was answered and
      stored since the cache was opened, under the tag it was opened with; for a guarded spec, exactly the
      storable successes of the closing epoch, whatever earlier flushes abandoned. Without a timeout nothing
      is left in flight; with one, whatever is left belongs to an epoch that is now over. */
  lemma FlushHandsOverTheEpoch<Req(!new), Key(!new), Val, Resp(!new), Ctx, Side>(
    spec: FetchSpec<Req, Key, Val, Resp, Ctx, Side>, ctx: Ctx, limit: nat, script: seq<Action<Req, Resp, Side>>,
    timedOut: bool)
    requires Lawful(spec)
    requires var s := Exec(spec, Init(ctx, limit), script);
             s.phase.Draining? && (s.inflight == 0 || timedOut)
    ensures var s0: State<Req, Key, Val, Resp, Ctx, Side> := Init(ctx, limit);
            var s := Exec(spec, s0, script);
            var s' := Step(spec, s, EndFlush(timedOut));
            var mark := OpenedAt(spec, s0, script);
            && mark <= |s.replies|
            && s'.flushReply == Some(TaggedCache(s.cacheHash, Collected(spec, s.replies[mark..], s.epoch)))
            && (forall k :: k in s'.flushReply.value.data <==>
                            exists r :: r in s.replies[mark..] && Contributes(spec, r, s.epoch)
                                        && spec.key(r.waiter.request) == k)
            && (spec.guarded ==> forall k :: k in s'.flushReply.value.data <==>
                            exists r :: r in s.replies && Produced(spec, r, s.epoch)
                                        && spec.key(r.waiter.request) == k)
            && (s.inflight == 0 ==> s.running == [] && s.sending == [] && s.completionRx == [])
            && (forall t :: t in s'.running ==> t.epoch < s'.epoch)
            && (forall d :: d in s'.sending || d in s'.completionRx ==> d.epoch < s'.epoch)
  {
    var s0: State<Req, Key, Val, Resp, Ctx, Side> := Init(ctx, limit);
    var s, mark := Exec(spec, s0, script), OpenedAt(spec, s0, script);
    ExecCollected(spec, ctx, limit, script);
    ExecAccounted(spec, ctx, limit, script);
    if spec.guarded {
      ExecExact(spec, ctx, limit, script);
      ExactKeys(spec, s);
    }
    CacheKeys(spec, s, mark);
    AllOfClosedEpoch(spec, s, timedOut);
  }

  lemma ExactKeys<Req, Key(!new), Val, Resp, Ctx, Side>(
    spec: FetchSpec<Req, Key, Val, Resp, Ctx, Side>, s: State<Req, Key, Val, Resp, Ctx, Side>)
    requires EpochExact(spec, s)
    ensures forall k :: k in s.cache <==>
              exists r :: r in s.replies && Produced(spec, r, s.epoch) && spec.key(r.waiter.request) == k
  {
  }

  lemma CacheKeys<Req, Key(!new), Val, Resp, Ctx, Side>(
    spec: FetchSpec<Req, Key, Val, Resp, Ctx, Side>, s: State<Req, Key, Val, Resp, Ctx, Side>, mark: nat)
    requires IsCollected(spec, s, mark)
    ensures forall k :: k in s.cache <==>
              exists r :: r in s.replies[mark..] && Contributes(spec, r, s.epoch) && spec.key(r.waiter.request) == k
  {
    forall k
      ensures k in s.cache <==> exists r :: r in s.replies[mark..] && Contributes(spec, r, s.epoch)
                                            && spec.key(r.waiter.request) == k
    {
      CollectedKeys(spec, s.replies[mark..], s.epoch, k);
    }
  }

  lemma AllOfClosedEpoch<Req, Key, Val, Resp, Ctx, Side>(
    spec: FetchSpec<Req, Key, Val, Resp, Ctx, Side>, s: State<Req, Key, Val, Resp, Ctx, Side>, timedOut: bool)
    requires Accounted(s) && Provenance(spec, s, Anything, AnyAnswer)
    requires s.phase.Draining? && (s.inflight <= 0 || timedOut)
    ensures var s' := Step(spec, s, EndFlush(timedOut));
            && s' == HandOver(s)
            && (s.inflight <= 0 ==> s.running == [] && s.sending == [] && s.completionRx == [])
            && (forall t :: t in s'.running ==> t.epoch < s'.epoch)
            && (forall d :: d in s'.sending || d in s'.completionRx ==> d.epoch < s'.epoch)
  {
    forall t | t in s.running
      ensures t.epoch <= s.epoch
    {
      assert FetchOk(spec, s, Anything, t.waiter, t.key, t.epoch);
    }
    forall d | d in s.sending || d in s.completionRx
      ensures d.epoch <= s.epoch
    {
      assert FetchOk(spec, s, Anything, d.waiter, d.key, d.epoch);
    }
  }

  // ---------------------------------------------------------------------------------------------
  // The manager from outside

  /** At move `n` of the run the RPC answered a fetch for this tag and key with this response. */
  ghost predicate GaveAt<Req, Key, Val, Resp, Ctx, Side>(
    spec: FetchSpec<Req, Key, Val, Resp, Ctx, Side>, s: State<Req, Key, Val, Resp, Ctx, Side>,
    script: seq<Action<Req, Resp, Side>>, n: nat, tag: Option<B256>, key: Key, resp: Resp)
  {
    && n < |script|
    && script[n].FinishFetch? && script[n].result == Ok(resp)
    && var before := Exec(spec, s, script[..n]);
       && script[n].task < |before.running|
       && spec.tag(before.running[script[n].task].waiter.request) == tag
       && spec.key(before.running[script[n].task].waiter.request) == key
  }

  ghost predicate Gave<Req, Key, Val, Resp, Ctx, Side>(
    spec: FetchSpec<Req, Key, Val, Resp, Ctx, Side>, s: State<Req, Key, Val, Resp, Ctx, Side>,
    script: seq<Action<Req, Resp, Side>>, tag: Option<B256>, key: Key, resp: Resp)
  {
    exists n: nat :: GaveAt(spec, s, script, n, tag, key, resp)
  }

  /** From outside the caching manager is one that always fetches: in every interleaving each successful
      reply, cached or not, is a response the RPC gave for a request with the same tag and the same key. */
  lemma EveryReplyIsAnRpcAnswer<Req(!new), Key, Val, Resp(!new), Ctx, Side>(
    spec: FetchSpec<Req, Key, Val, Resp, Ctx, Side>, ctx: Ctx, limit: nat, script: seq<Action<Req, Resp, Side>>)
    requires Lawful(spec)
    ensures var s0: State<Req, Key, Val, Resp, Ctx, Side> := Init(ctx, limit);
            var s := Exec(spec, s0, script);
            && (forall r :: r in s.replies && r.result.Ok? ==>
                  Gave(spec, s0, script, spec.tag(r.waiter.request), spec.key(r.waiter.request), r.result.value))
            && (forall k :: k in s.cache ==>
                  Gave(spec, s0, script, CacheTag(spec, s.cacheHash), k, spec.hit(s.cache[k])))
            && (s.flushReply.Some? ==> forall k :: k in s.flushReply.value.data ==>
                  Gave(spec, s0, script, CacheTag(spec, s.flushReply.value.blockHash), k,
                       spec.hit(s.flushReply.value.data[k])))
  {
    var s0: State<Req, Key, Val, Resp, Ctx, Side> := Init(ctx, limit);
    var fits := (tag: Option<B256>, key: Key, resp: Resp) => Gave(spec, s0, script, tag, key, resp);
    forall n: nat | n < |script|
      ensures Honest(spec, Exec(spec, s0, script[..n]), script[n], Anything, fits)
    {
      var before := Exec(spec, s0, script[..n]);
      if script[n].FinishFetch? && script[n].task < |before.running| && script[n].result.Ok? {
        var req := before.running[script[n].task].waiter.request;
        assert GaveAt(spec, s0, script, n, spec.tag(req), spec.key(req), script[n].result.value);
      }
    }
    ExecProvenance(spec, s0, script, Anything, fits);
  }
}
