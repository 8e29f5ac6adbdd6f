/** Request ids and claim bookkeeping: a reader's private set and the shared map agree after every step. */
module PoolBooks {
  import opened Bytes
  import opened Frame
  import opened PoolState

  /** The ids the shared map says worker w has claimed. */
  function ClaimedBy(pending: Pendings, w: nat): set<u32> {
    set id | id in pending && pending[id].claimedBy == Some(w)
  }

  /** A reader's private set is exactly what the shared map says its worker has claimed. */
  ghost predicate Books(pending: Pendings, workers: map<nat, Worker>, readers: map<nat, Reader>) {
    && (forall w | w in readers :: w in workers && readers[w].claimed == ClaimedBy(pending, w)
          && |readers[w].claimed| <= workers[w].granted)
    && (forall id | id in pending && pending[id].claimedBy.Some? :: pending[id].claimedBy.value in readers)
  }

  ghost predicate BooksOf(s: State) {
    Books(s.table.pending, s.crew.workers, s.crew.readers)
  }

  // --- request ids: the wrapping loop ---

  lemma {:induction false} WrapAgain(c: u32, j: nat)
    ensures Candidate32(Wrap(c + 1), j) == Candidate32(c, j + 1)
  {
  }

  lemma {:induction false} NoFullTurn(c: u32, j: nat)
    requires 0 < j < U32_LIMIT
    ensures Candidate32(c, j) != c
  {
  }

  /** With fewer than 2^32 ids in use the loop stops within |used| + 1 tries, at the first free id. */
  lemma {:induction false} NextFreeIsFree(used: set<u32>, c: u32) returns (tries: nat)
    requires |used| < U32_LIMIT
    ensures NextFree(used, c) == Candidate32(c, tries) && tries <= |used|
    ensures NextFree(used, c) !in used
    ensures forall j | 0 <= j < tries :: Candidate32(c, j) in used
    decreases |used|
  {
    if c !in used {
      tries := 0;
      assert Candidate32(c, 0) == c;
    } else {
      var t := NextFreeIsFree(used - {c}, Wrap(c + 1));
      tries := t + 1;
      WrapAgain(c, t);
      NoFullTurn(c, tries);
      forall j | 0 <= j < tries
        ensures Candidate32(c, j) in used
      {
        if j == 0 {
          assert Candidate32(c, 0) == c;
        } else {
          WrapAgain(c, j - 1);
        }
      }
    }
  }

  lemma {:induction false} FreshIdIsFree(t: Table)
    requires |t.pending| < U32_LIMIT
    ensures FreshId(t) !in t.pending
  {
    var tries := NextFreeIsFree(t.pending.Keys, t.nextId);
  }

  // --- what the steps do to the claimed sets ---

  lemma {:induction false} SameClaims(p: Pendings, q: Pendings, w: nat)
    requires p.Keys == q.Keys && forall id | id in p :: q[id].claimedBy == p[id].claimedBy
    ensures ClaimedBy(q, w) == ClaimedBy(p, w)
  {
  }

  lemma {:induction false} InsertUnclaimed(p: Pendings, id: u32, e: Pending, w: nat)
    requires id !in p && e.claimedBy.None?
    ensures ClaimedBy(p[id := e], w) == ClaimedBy(p, w)
  {
  }

  lemma {:induction false} InsertClaimed(p: Pendings, id: u32, e: Pending, w: nat, v: nat)
    requires id in p && p[id].claimedBy.None? && e.claimedBy == Some(w)
    ensures ClaimedBy(p[id := e], v) == if v == w then ClaimedBy(p, v) + {id} else ClaimedBy(p, v)
  {
  }

  lemma {:induction false} Without(p: Pendings, gone: set<u32>, w: nat)
    ensures ClaimedBy(p - gone, w) == ClaimedBy(p, w) - gone
  {
  }

  lemma {:induction false} OthersKeepTheirs(p: Pendings, w: nat, v: nat)
    requires v != w
    ensures ClaimedBy(p, v) !! ClaimedBy(p, w)
  {
  }

  // --- the bookkeeping, step by step ---

  lemma {:induction false} BooksAfterRemoval(p: Pendings, workers: map<nat, Worker>, readers: map<nat, Reader>, id: u32)
    requires Books(p, workers, readers) && (id in p ==> p[id].claimedBy.None?)
    ensures Books(p - {id}, workers, readers)
  {
    forall w | w in readers
      ensures ClaimedBy(p - {id}, w) == ClaimedBy(p, w)
    {
      Without(p, {id}, w);
    }
  }

  lemma {:induction false} BooksAfterClaim(p: Pendings, workers: map<nat, Worker>, readers: map<nat, Reader>, w: nat, id: u32, e: Pending)
    requires Books(p, workers, readers) && w in readers && |readers[w].claimed| < workers[w].granted
    requires id in p && p[id].claimedBy.None? && e.claimedBy == Some(w)
    ensures Books(p[id := e], workers, readers[w := readers[w].(claimed := readers[w].claimed + {id})])
  {
    forall v | v in readers
      ensures ClaimedBy(p[id := e], v) == if v == w then ClaimedBy(p, v) + {id} else ClaimedBy(p, v)
    {
      InsertClaimed(p, id, e, w, v);
    }
    assert |readers[w].claimed + {id}| <= |readers[w].claimed| + 1;
  }

  lemma {:induction false} BooksAfterFinish(p: Pendings, workers: map<nat, Worker>, readers: map<nat, Reader>, w: nat, id: u32)
    requires Books(p, workers, readers) && w in readers && id in readers[w].claimed
    ensures Books(p - {id}, workers, readers[w := readers[w].(claimed := readers[w].claimed - {id})])
  {
    forall v | v in readers
      ensures ClaimedBy(p - {id}, v) == if v == w then ClaimedBy(p, v) - {id} else ClaimedBy(p, v)
    {
      Without(p, {id}, v);
      if v != w {
        OthersKeepTheirs(p, w, v);
      }
    }
    assert |readers[w].claimed - {id}| <= |readers[w].claimed|;
  }

  lemma {:induction false} BooksAfterExit(p: Pendings, workers: map<nat, Worker>, readers: map<nat, Reader>, w: nat)
    requires Books(p, workers, readers) && w in readers
    ensures Books(p - readers[w].claimed, workers, readers - {w})
    ensures ClaimedBy(p - readers[w].claimed, w) == {}
  {
    forall v | v in readers
      ensures ClaimedBy(p - readers[w].claimed, v) == if v == w then {} else ClaimedBy(p, v)
    {
      Without(p, readers[w].claimed, v);
      if v != w {
        OthersKeepTheirs(p, w, v);
      }
    }
    var q := p - readers[w].claimed;
    forall id | id in q && q[id].claimedBy.Some?
      ensures q[id].claimedBy.value in readers - {w}
    {
      assert id in p && (p[id].claimedBy == Some(w) ==> id in ClaimedBy(p, w));
    }
  }

  lemma {:induction false} BooksAfterInsert(t: Table, workers: map<nat, Worker>, readers: map<nat, Reader>, c: nat)
    requires Books(t.pending, workers, readers) && |t.pending| < U32_LIMIT
    ensures Books(Insert(t, c).pending, workers, readers)
  {
    FreshIdIsFree(t);
    forall w | w in readers
      ensures ClaimedBy(Insert(t, c).pending, w) == ClaimedBy(t.pending, w)
    {
      InsertUnclaimed(t.pending, FreshId(t), Pending(c, None, None, false, None), w);
    }
  }

  lemma {:induction false} BooksAfterKill(pending: Pendings, crew: Crew, w: nat, token: nat)
    requires Books(pending, crew.workers, crew.readers)
    ensures Books(pending, Kill(crew, w, token).workers, Kill(crew, w, token).readers)
  {
  }

  lemma {:induction false} BooksAfterEnlist(pending: Pendings, crew: Crew, w: nat, token: nat, granted: nat, stream: nat,
                                            now: nat)
    requires Books(pending, crew.workers, crew.readers) && w !in crew.workers
    ensures var d := Enlist(crew, w, token, granted, stream, now); Books(pending, d.workers, d.readers)
  {
    assert ClaimedBy(pending, w) == {};
  }

  lemma {:induction false} BooksAfterDismiss(cfg: Config, pending: Pendings, crew: Crew, w: nat, now: nat)
    requires Books(pending, crew.workers, crew.readers)
    ensures Books(pending, Dismiss(cfg, crew, w, now).workers, Dismiss(cfg, crew, w, now).readers)
  {
  }

  lemma {:induction false} BooksAfterMark(p: Pendings, workers: map<nat, Worker>, readers: map<nat, Reader>, ids: set<u32>, now: nat)
    requires Books(p, workers, readers)
    ensures Books(MarkAborted(p, ids, now), workers, readers)
  {
    var q := MarkAborted(p, ids, now);
    forall w | w in readers
      ensures ClaimedBy(q, w) == ClaimedBy(p, w)
    {
      SameClaims(p, q, w);
    }
  }

  lemma {:induction false} BooksAfterTake(s: State, w: nat, id: u32)
    requires BooksOf(s) && w in s.crew.readers && |s.crew.readers[w].claimed| < s.crew.workers[w].granted
    ensures BooksOf(ClaimStep(s, w, id))
  {
    if Unclaimed(s.table.pending, id) {
      BooksAfterClaim(s.table.pending, s.crew.workers, s.crew.readers, w, id,
                      MarkClaimed(s.table, id, w, s.now).pending[id]);
    }
  }

  lemma {:induction false} BooksAfterFree(s: State, w: nat, f: Frame)
    requires BooksOf(s) && w in s.crew.readers && f.id in s.crew.readers[w].claimed
    ensures BooksOf(FinishStep(s, w, f))
  {
    assert f.id in ClaimedBy(s.table.pending, w);
    BooksAfterFinish(s.table.pending, s.crew.workers, s.crew.readers, w, f.id);
  }

  /** An exiting reader leaves nothing claimed by its worker. */
  lemma {:induction false} ReaderExitDrains(s: State, w: nat, full: set<nat>)
    requires BooksOf(s) && w in s.crew.readers
    ensures BooksOf(ExitStep(s, w, full)) && ClaimedBy(ExitStep(s, w, full).table.pending, w) == {}
  {
    BooksAfterExit(s.table.pending, s.crew.workers, s.crew.readers, w);
  }

  lemma {:induction false} BooksAfterHear(s: State, w: nat, f: Frame, full: set<nat>)
    requires BooksOf(s) && w in s.crew.readers
    ensures BooksOf(HearStep(s, w, f, full))
  {
    var t := TookStep(s, w, f);
    match TurnFor(s.crew, w, f)
    case Drop =>
    case OverClaim =>
      BooksAfterKill(t.table.pending, t.crew, w, s.crew.workers[w].token);
      ReaderExitDrains(t.(crew := Kill(t.crew, w, s.crew.workers[w].token)), w, full);
    case TakeClaim => BooksAfterTake(t, w, f.id);
    case Free => BooksAfterFree(t, w, f);
    case Forward =>
  }

  lemma {:induction false} BooksAfterSendFailed(s: State, c: nat)
    requires BooksOf(s) && c in s.permits.sending
    requires s.permits.sending[c] in s.table.pending ==> Unclaimed(s.table.pending, s.permits.sending[c])
    ensures BooksOf(SendFailedStep(s, c))
  {
    BooksAfterRemoval(s.table.pending, s.crew.workers, s.crew.readers, s.permits.sending[c]);
  }

  lemma {:induction false} BooksAfterDrop(s: State, c: nat)
    requires BooksOf(s) && c in s.permits.open
    ensures BooksOf(DropStreamStep(s, c))
  {
    if Unclaimed(s.table.pending, s.permits.open[c]) {
      BooksAfterRemoval(s.table.pending, s.crew.workers, s.crew.readers, s.permits.open[c]);
    }
  }

  /** The claim that a failed send needs of the environment. */
  predicate SendFailsUnclaimed(s: State, a: Action) {
    (a.SendFailed? && a.channel in s.permits.sending && s.permits.sending[a.channel] in s.table.pending)
    ==> Unclaimed(s.table.pending, s.permits.sending[a.channel])
  }

  /** Every step keeps the books, except a failed send whose request had been claimed all the same. */
  lemma {:induction false} StepKeepsBooks(cfg: Config, s: State, a: Action)
    requires BooksOf(s) && |s.table.pending| < U32_LIMIT && SendFailsUnclaimed(s, a)
    ensures BooksOf(Next(cfg, s, a))
  {
    match a
    case Submit => BooksAfterInsert(s.table, s.crew.workers, s.crew.readers, |s.trace.channels|);
    case SendFailed(c) => if c in s.permits.sending { BooksAfterSendFailed(s, c); }
    case DropStream(c) => if c in s.permits.open { BooksAfterDrop(s, c); }
    case Join(w, token, declared) =>
      if w !in s.crew.workers {
        BooksAfterEnlist(s.table.pending, s.crew, w, token, Grant(cfg, s.crew.granted, declared), |s.trace.streams|, s.now);
      }
    case Hear(w, f, full) => if w in s.crew.readers { BooksAfterHear(s, w, f, full); }
    case ReaderExit(w, full) => if w in s.crew.readers { ReaderExitDrains(s, w, full); }
    case Remove(w) => BooksAfterDismiss(cfg, s.table.pending, s.crew, w, s.now);
    case Sweep =>
      BooksAfterMark(s.table.pending, s.crew.workers, s.crew.readers, ToAbort(cfg, s.table.pending, s.now), s.now);
    case Confirm(w, token, idle) => BooksAfterKill(s.table.pending, s.crew, w, token);
    case _ =>
  }

  /** A send that fails after the worker claimed the id leaves the reader's set ahead of the shared map:
      the condition of `StepKeepsBooks` is exact. */
  lemma {:induction false} FailedSendOfClaimedBreaksBooks(s: State, c: nat)
    requires BooksOf(s) && c in s.permits.sending
    requires s.permits.sending[c] in s.table.pending && !Unclaimed(s.table.pending, s.permits.sending[c])
    ensures !BooksOf(SendFailedStep(s, c))
  {
    var id := s.permits.sending[c];
    var w := s.table.pending[id].claimedBy.value;
    assert id in ClaimedBy(s.table.pending, w);
    assert id !in ClaimedBy(s.table.pending - {id}, w);
  }
}
