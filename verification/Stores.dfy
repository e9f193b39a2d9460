/** Every store of a run is one turn of the writer: what readers find next is what the notification makes of what
    they found before and of the four caches handed over, and nothing else ever changes it. */
module Stores {
  import opened Types
  import opened Systems
  import opened Turns

  ghost predicate OnPublished(s: System) {
    s.writer.Flushing? ==> s.writer.base == s.published
  }

  lemma SubmitLeavesWriter(s: System, i: nat)
    requires i < |s.loads|
    ensures SubmitRead(s, i).published == s.published && SubmitRead(s, i).writer == s.writer
  {
  }

  lemma OnPublishedStep(keccak: Bytecode -> B256, s: System, m: Move)
    requires OnPublished(s)
    ensures OnPublished(SystemStep(keccak, s, m))
  {
    if m.Submit? && m.load < |s.loads| {
      SubmitLeavesWriter(s, m.load);
    }
  }

  lemma {:induction false} ExecuteOnPublished(keccak: Bytecode -> B256, start: System, moves: seq<Move>)
    requires OnPublished(start)
    ensures OnPublished(Execute(keccak, start, moves))
    decreases |moves|
  {
    if moves == [] {
    } else {
      ExecuteOnPublished(keccak, start, moves[..|moves| - 1]);
      OnPublishedStep(keccak, Execute(keccak, start, moves[..|moves| - 1]), moves[|moves| - 1]);
    }
  }

  /** What the managers handed over: each guarded cache under its tag, code without one. */
  predicate HandedOver(s: System, caches: Caches) {
    && s.accounts.flushReply == Some(caches.accounts) && s.storage.flushReply == Some(caches.storage)
    && s.blockHashes.flushReply == Some(caches.blockHashes)
    && s.code.flushReply.Some? && s.code.flushReply.value.data == caches.code
  }

  /** After any run, a move publishes exactly when the writer has taken up a notification and all four managers have
      handed over; then the snapshot is that notification's turn on the one published till then. Any other move
      leaves it. A notification is taken up when the writer waits, and kept until its store. */
  lemma {:induction false} EveryStoreIsATurn(keccak: Bytecode -> B256, a: nat, c: nat, g: nat, b: nat,
                                             moves: seq<Move>, m: Move, caches: Caches)
    ensures var s := Execute(keccak, Start(a, c, g, b), moves);
            var s' := SystemStep(keccak, s, m);
            && (m.Publish? && s.writer.Flushing? && HandedOver(s, caches) ==>
                  Turn(s.published, s.writer.n, caches, s'.published) && s'.writer.Stored?)
            && (!m.Publish? || !s.writer.Flushing? ==> s'.published == s.published)
            && (m.Notify? && s.writer.Waiting? ==> s'.writer.Flushing? && s'.writer.n == m.notification)
            && (!m.Publish? && s.writer.Flushing? ==> s'.writer == s.writer)
  {
    var s := Execute(keccak, Start(a, c, g, b), moves);
    ExecuteOnPublished(keccak, Start(a, c, g, b), moves);
    if m.Publish? && s.writer.Flushing? && HandedOver(s, caches) {
      assert FlushedCaches(s) == caches;
      EveryTurn(s.published, s.writer.n, caches);
    } else if m.Submit? && m.load < |s.loads| {
      SubmitLeavesWriter(s, m.load);
    }
  }
}
