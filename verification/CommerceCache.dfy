/** The stock cache of the searches (core.py, `_stock_deltas` and
    `_invalidate_stock_cache`): when it goes stale, step by step and over whole runs. */
module CommerceCache {
  import opened Wrappers
  import opened CommerceModel
  import opened CommerceProtocol
  import opened CommerceRuns
  import opened CommerceTheorems
  import Sku

  // --- one step -----------------------------------------------------------------------------

  /** A call has committed and not yet dropped the cache. */
  ghost predicate DropDue(s: System) {
    exists id :: id in s.calls && s.calls[id].phase.Invalidating?
  }

  /** The cache shows the table as it is, or is about to be dropped. */
  ghost predicate CacheFresh(s: System) {
    s.cache.Some? && s.cache.value != s.db.deltas ==> DropDue(s)
  }

  /** The steps that leave a stale cache behind: a search stores rows it read
      before a commit whose drop is already past, or the call that owed the drop dies. */
  ghost predicate Spoils(s: System, l: Label) {
    match l
    case StoreStock(r) => r in s.pending && s.pending[r] != s.db.deltas && !DropDue(s)
    case Lose(id) => s.cache.Some? && s.cache.value != s.db.deltas
                     && forall x :: x in s.calls && s.calls[x].phase.Invalidating? ==> x == id
    case _ => false
  }

  ghost predicate Untouched(s: System, t: System, id: nat)
    requires id in s.calls
  {
    id in t.calls && t.calls[id] == s.calls[id]
  }

  /** The steps of one call leave every other call where it is. */
  lemma OthersStay(s: System, x: nat, id: nat, open: bool)
    requires x in s.calls && id in s.calls && x != id
    ensures Untouched(s, ReadReceiptStep(s, x), id)
    ensures Untouched(s, PreFaultStep(s, x, open), id)
    ensures Untouched(s, RecoverStep(s, x), id)
    ensures s.calls[x].phase.PostFault? ==> Untouched(s, PostFaultStep(s, x, s.calls[x].phase.reply, open), id)
  {
    hide Consume, Replay;
  }

  lemma OthersStayWriting(m: Market, s: System, x: nat, id: nat, env: Env, busy: bool)
    requires x in s.calls && id in s.calls && x != id
    ensures Untouched(s, WriteStep(m, s, x, env, busy), id)
  {
    hide Transaction;
  }

  /** A call that owes the drop stays so through any step but its own, its loss and a restart. */
  lemma DueUntouched(m: Market, s: System, l: Label, id: nat)
    requires id in s.calls && s.calls[id].phase.Invalidating?
    requires l != Invalidate(id) && l != Lose(id) && l != Restart
    ensures Untouched(s, Step(m, s, l), id)
  {
    hide Consume, SettleWork, Fresh, Admissible, ReadReceiptStep, PreFaultStep, WriteStep, RecoverStep, PostFaultStep;
    match l
    case ReadReceipt(x) => if x in s.calls && x != id { OthersStay(s, x, id, false); }
    case TakePreFault(x, open) => if x in s.calls && x != id { OthersStay(s, x, id, open); }
    case Recover(x) => if x in s.calls && x != id { OthersStay(s, x, id, false); }
    case TakePostFault(x, open) => if x in s.calls && x != id { OthersStay(s, x, id, open); }
    case Write(x, shelf, uuid, busy) =>
      if x in s.calls && x != id && s.calls[x].phase.Writing? {
        OthersStayWriting(m, s, x, id, Env(shelf, s.clock, uuid, s.calls[x].phase.processing), busy);
      }
    case _ =>
  }

  lemma StillDue(m: Market, s: System, l: Label, id: nat)
    requires id in s.calls && s.calls[id].phase.Invalidating?
    requires l != Invalidate(id) && l != Lose(id) && l != Restart
    ensures DropDue(Step(m, s, l))
  {
    hide Step;
    DueUntouched(m, s, l, id);
  }

  lemma WriteOwesDrop(m: Market, s: System, id: nat, env: Env, busy: bool)
    requires id in s.calls
    ensures WriteStep(m, s, id, env, busy).cache == s.cache
    ensures WriteStep(m, s, id, env, busy).db == s.db || DropDue(WriteStep(m, s, id, env, busy))
  {
    hide Transaction;
    var t := WriteStep(m, s, id, env, busy);
    if t.db != s.db {
      assert id in t.calls && t.calls[id].phase.Invalidating?;
    }
  }

  lemma CallStepFrame(m: Market, s: System, l: Label)
    requires l.ReadReceipt? || l.TakePreFault? || l.Recover? || l.TakePostFault?
    ensures Step(m, s, l).db == s.db && Step(m, s, l).cache == s.cache
  {
    hide Consume, Replay;
  }

  /** A fresh cache stays fresh through a step exactly unless the step spoils it. */
  lemma CacheFreshExactly(m: Market, s: System, l: Label)
    requires CacheFresh(s)
    ensures CacheFresh(Step(m, s, l)) <==> !Spoils(s, l)
  {
    hide Consume, WriteStep, Fresh, Admissible, ReadReceiptStep, PreFaultStep, RecoverStep, PostFaultStep;
    if l.ReadReceipt? || l.TakePreFault? || l.Recover? || l.TakePostFault? {
      CallStepFrame(m, s, l);
    }
    var t := Step(m, s, l);
    if DropDue(s) && !l.Invalidate? && !l.Restart? {
      if id :| id in s.calls && s.calls[id].phase.Invalidating? && l != Lose(id) {
        StillDue(m, s, l, id);
      } else {
        assert l.Lose? && !DropDue(t);
      }
    }
    if l.Write? && t != s {
      WriteOwesDrop(m, s, l.id, Env(l.shelf, s.clock, l.uuid, s.calls[l.id].phase.processing), l.busy);
    }
  }

  /** The race behind a spoiled cache: a search reads the rows, an order commits and
      drops the cache, then the search stores what it read. Nothing is due to drop it. */
  lemma StaleRace(m: Market, s: System, reader: nat, id: nat, shelf: Shelf, uuid: string)
    requires s.cache.None? && id in s.calls && s.calls[id].phase.Writing? && Fresh(s.db, uuid)
    requires !DropDue(s)
    requires var call := s.calls[id].call;
             var env := Env(shelf, s.clock, uuid, s.calls[id].phase.processing);
             Transaction(m, s.db, call, env).Ok? && Transaction(m, s.db, call, env).value.0.deltas != s.db.deltas
    ensures !CacheFresh(Run(m, s, [ReadStock(reader), Write(id, shelf, uuid, false),
                                   Invalidate(id), StoreStock(reader)]))
  {
    hide Transaction, Fresh, WriteStep;
    var ls := [ReadStock(reader), Write(id, shelf, uuid, false), Invalidate(id), StoreStock(reader)];
    var s1 := Step(m, s, ls[0]);
    var s2 := Step(m, s1, ls[1]);
    var s3 := Step(m, s2, ls[2]);
    var s4 := Step(m, s3, ls[3]);
    WriteCommits(m, s1, id, Env(shelf, s.clock, uuid, s.calls[id].phase.processing));
    assert s4.cache == Some(s.db.deltas) && s4.db == s2.db;
    assert !DropDue(s4) by {
      forall x | x in s4.calls ensures !s4.calls[x].phase.Invalidating? {
        assert x != id ==> x in s.calls && s.calls[x] == s4.calls[x];
      }
    }
    hide Step;
    assert ls[..3][..2][..1][..0] == [];
    assert Run(m, s, ls[..3][..2][..1]) == s1;
    assert Run(m, s, ls[..3][..2]) == s2;
    assert Run(m, s, ls[..3]) == s3;
  }

  lemma WriteCommits(m: Market, s: System, id: nat, env: Env)
    requires id in s.calls && Transaction(m, s.db, s.calls[id].call, env).Ok?
    ensures var t := WriteStep(m, s, id, env, false);
            && t.db == Transaction(m, s.db, s.calls[id].call, env).value.0
            && t.cache == s.cache && t.pending == s.pending
            && id in t.calls && t.calls[id].phase.Invalidating?
            && t.calls == s.calls[id := t.calls[id]]
  {
    hide Transaction;
  }

  lemma {:induction false} SumOfPrefix(deltas: seq<Delta>, k: nat, sku: string)
    requires k <= |deltas| && forall i :: 0 <= i < |deltas| ==> deltas[i].delta <= 0
    ensures Sum(deltas[..k], sku) >= Sum(deltas, sku)
  {
    if k < |deltas| {
      SumOfPrefix(deltas[..|deltas| - 1], k, sku);
      assert deltas[..|deltas| - 1][..k] == deltas[..k];
    } else {
      assert deltas[..k] == deltas;
    }
  }

  /** However stale, the cache shows an earlier table, so it never understates what is for sale. */
  lemma CacheNeverUnderstates(m: Market, faults: bool, clock: Time, labels: seq<Label>, sku: string)
    requires Sku.Faithful(m.rules)
    ensures var s := Run(m, Initial(faults, clock), labels);
            s.cache.Some? ==> Sum(s.cache.value, sku) >= Sum(s.db.deltas, sku)
  {
    Reachable(m, faults, clock, labels);
    var s := Run(m, Initial(faults, clock), labels);
    if s.cache.Some? {
      assert s.db.deltas[..|s.cache.value|] == s.cache.value;
      SumOfPrefix(s.db.deltas, |s.cache.value|, sku);
    }
  }

  // --- whole runs ---------------------------------------------------------------------------

  /** Where a run starts, and the labels it follows. */
  datatype History = History(m: Market, faults: bool, clock: Time, labels: seq<Label>)
  {
    /** The state before step `k`. */
    ghost function At(k: nat): System
      requires k <= |labels|
    {
      Run(m, Initial(faults, clock), labels[..k])
    }

    lemma AtNext(k: nat)
      requires k < |labels|
      ensures At(k + 1) == Step(m, At(k), labels[k])
    {
      hide Step;
      assert labels[..k + 1][..k] == labels[..k];
    }
  }

  /** At step `i` reader `r` read the stock rows. */
  ghost predicate ReadAt(h: History, i: nat, r: nat) {
    i < |h.labels| && h.labels[i] == ReadStock(r) && h.At(i).cache.None?
  }

  /** Step `j` drops the cache or stores another. */
  ghost predicate Drops(h: History, j: nat)
    requires j < |h.labels|
  {
    match h.labels[j]
    case Restart => true
    case Invalidate(id) => id in h.At(j).calls && h.At(j).calls[id].phase.Invalidating?
    case StoreStock(r) => r in h.At(j).pending
    case _ => false
  }

  /** What reader `r` read at step `i` it stored at step `k`, and nothing before `n` dropped it. */
  ghost predicate StoredFrom(h: History, i: nat, k: nat, r: nat, n: nat) {
    && i < k < n <= |h.labels|
    && ReadAt(h, i, r) && h.labels[k] == StoreStock(r) && r in h.At(k).pending
    && h.At(k).pending[r] == h.At(i).db.deltas
    && forall j :: k < j < n ==> !Drops(h, j)
  }

  ghost predicate Stored(h: History, n: nat) { exists i: nat, k: nat, r: nat :: StoredFrom(h, i, k, r, n) }

  /** A reader's rows are those of the table when it read. */
  lemma {:induction false} PendingIsRead(h: History, n: nat, r: nat)
    requires n <= |h.labels| && r in h.At(n).pending
    ensures exists i: nat :: i < n && ReadAt(h, i, r) && h.At(n).pending[r] == h.At(i).db.deltas
  {
    if n > 0 {
      h.AtNext(n - 1);
      PendingStep(h.m, h.At(n - 1), h.labels[n - 1], r);
      if h.labels[n - 1] == ReadStock(r) && h.At(n - 1).cache.None? {
        assert ReadAt(h, n - 1, r);
      } else {
        hide Run, Step, ReadAt;
        PendingIsRead(h, n - 1, r);
      }
    }
  }

  lemma PendingStep(m: Market, s: System, l: Label, r: nat)
    requires r in Step(m, s, l).pending
    ensures if l == ReadStock(r) && s.cache.None? then Step(m, s, l).pending[r] == s.db.deltas
            else r in s.pending && Step(m, s, l).pending[r] == s.pending[r]
  {
    hide Consume, Transaction, SettleWork, Fresh, Admissible, Replay;
  }

  lemma CacheStep(m: Market, s: System, l: Label)
    ensures var t := Step(m, s, l);
            t.cache == match l
                       case Restart => None
                       case Invalidate(id) =>
                         if id in s.calls && s.calls[id].phase.Invalidating? then None else s.cache
                       case StoreStock(r) => if r in s.pending then Some(s.pending[r]) else s.cache
                       case _ => s.cache
  {
    hide Consume, Transaction, SettleWork, Fresh, Admissible, Replay;
  }

  /** Exactly: something is cached if and only if a reader stored what it read and
      nothing has dropped it since; and then it is the table of the moment it was read. */
  lemma {:induction false} CachedExactly(h: History, n: nat)
    requires n <= |h.labels|
    ensures h.At(n).cache.Some? <==> Stored(h, n)
    ensures forall i: nat, k: nat, r: nat :: StoredFrom(h, i, k, r, n) ==> h.At(n).cache == Some(h.At(i).db.deltas)
  {
    hide Run, Step, ReadAt;
    if n == 0 {
      AtStart(h);
    } else {
      h.AtNext(n - 1);
      CacheStep(h.m, h.At(n - 1), h.labels[n - 1]);
      CachedExactly(h, n - 1);
      forall i: nat, k: nat, r: nat | StoredFrom(h, i, k, r, n) ensures h.At(n).cache == Some(h.At(i).db.deltas) {
        if k < n - 1 {
          assert StoredFrom(h, i, k, r, n - 1) && !Drops(h, n - 1);
        }
      }
      if h.At(n).cache.Some? {
        CachedSince(h, n);
      }
    }
  }

  lemma StoredNext(h: History, i: nat, k: nat, r: nat, n: nat)
    requires 0 < n <= |h.labels| && StoredFrom(h, i, k, r, n - 1) && !Drops(h, n - 1)
    ensures StoredFrom(h, i, k, r, n)
  {
    hide Run, Drops, ReadAt;
  }

  lemma CachedSince(h: History, n: nat)
    requires 0 < n <= |h.labels| && h.At(n).cache.Some?
    requires h.At(n - 1).cache.Some? ==> Stored(h, n - 1)
    ensures Stored(h, n)
  {
    hide Run, Step, ReadAt;
    h.AtNext(n - 1);
    CacheStep(h.m, h.At(n - 1), h.labels[n - 1]);
    if h.labels[n - 1].StoreStock? && h.labels[n - 1].reader in h.At(n - 1).pending {
      var r := h.labels[n - 1].reader;
      PendingIsRead(h, n - 1, r);
      var i: nat :| i < n - 1 && ReadAt(h, i, r) && h.At(n - 1).pending[r] == h.At(i).db.deltas;
      assert StoredFrom(h, i, n - 1, r, n);
    } else {
      var i: nat, k: nat, r: nat :| StoredFrom(h, i, k, r, n - 1);
      assert !Drops(h, n - 1);
      StoredNext(h, i, k, r, n);
    }
  }

  /** A write at step `w` changed the stock rows. */
  ghost predicate Takes(h: History, w: nat) {
    w < |h.labels| && h.labels[w].Write? && h.At(w + 1).db.deltas != h.At(w).db.deltas
  }

  ghost predicate TakenSince(h: History, i: nat, n: nat) { exists w: nat :: i <= w < n && Takes(h, w) }

  lemma TakenNext(h: History, i: nat, n: nat)
    requires i < n
    ensures TakenSince(h, i, n) <==> TakenSince(h, i, n - 1) || Takes(h, n - 1)
  {
    hide Takes;
  }

  lemma {:induction false} RowsGrow(h: History, i: nat, n: nat)
    requires Sku.Faithful(h.m.rules) && i <= n <= |h.labels|
    ensures h.At(i).db.deltas <= h.At(n).db.deltas
    ensures h.At(i).db.deltas != h.At(n).db.deltas <==> TakenSince(h, i, n)
  {
    hide Run, Step, TakenSince;
    if i < n {
      h.AtNext(n - 1);
      RowsGrow(h, i, n - 1);
      Reachable(h.m, h.faults, h.clock, h.labels[..n - 1]);
      StepRows(h.m, h.At(n - 1), h.labels[n - 1]);
      TakenNext(h, i, n);
    } else {
      assert !TakenSince(h, i, n) by { NoneTaken(h, i); }
    }
  }

  lemma NoneTaken(h: History, i: nat)
    ensures !TakenSince(h, i, i)
  {
  }

  lemma StepRows(m: Market, s: System, l: Label)
    requires Sku.Faithful(m.rules) && SystemInv(m, s)
    ensures s.db.deltas <= Step(m, s, l).db.deltas
    ensures !l.Write? ==> s.db.deltas == Step(m, s, l).db.deltas
  {
    StepKeeps(m, s, l);
    DeltasGrow(s.db, Step(m, s, l).db);
    if !l.Write? { UnwrittenRows(m, s, l); }
  }

  lemma UnwrittenRows(m: Market, s: System, l: Label)
    requires !l.Write?
    ensures s.db.deltas == Step(m, s, l).db.deltas
  {
    if !l.Settle? {
      hide Step;
      OnlyWritesWrite(m, s, l);
    }
  }

  /** The write at step `w` committed and its caller has neither dropped the cache nor died since. */
  ghost predicate Owes(h: History, w: nat, n: nat) {
    && w < n <= |h.labels| && h.labels[w].Write?
    && var id := h.labels[w].id;
       && id in h.At(w).calls && h.At(w).calls[id].phase.Writing?
       && id in h.At(w + 1).calls && h.At(w + 1).calls[id].phase.Invalidating?
       && forall j :: w < j < n ==> h.labels[j] != Invalidate(id) && h.labels[j] != Lose(id) && h.labels[j] != Restart
  }

  /** Only calls that owed the drop before owe it now. */
  ghost predicate NoneNewlyDue(s: System, t: System) {
    forall id :: id in t.calls && t.calls[id].phase.Invalidating? ==>
      id in s.calls && s.calls[id].phase.Invalidating?
  }

  lemma CallStepsNotDue(s: System, x: nat, open: bool)
    requires x in s.calls && !s.calls[x].phase.Invalidating?
    ensures NoneNewlyDue(s, ReadReceiptStep(s, x)) && NoneNewlyDue(s, PreFaultStep(s, x, open))
    ensures NoneNewlyDue(s, RecoverStep(s, x))
    ensures s.calls[x].phase.PostFault? ==> NoneNewlyDue(s, PostFaultStep(s, x, s.calls[x].phase.reply, open))
  {
    hide Consume, Replay;
  }

  lemma WriteDue(m: Market, s: System, x: nat, env: Env, busy: bool, id: nat)
    requires x in s.calls && id in WriteStep(m, s, x, env, busy).calls
    requires WriteStep(m, s, x, env, busy).calls[id].phase.Invalidating?
    ensures id == x || (id in s.calls && s.calls[id].phase.Invalidating?)
  {
    hide Transaction;
  }

  /** A call comes to owe the drop only by its own write. */
  lemma DueStep(m: Market, s: System, l: Label, id: nat)
    requires id in Step(m, s, l).calls && Step(m, s, l).calls[id].phase.Invalidating?
    ensures id in s.calls
    ensures s.calls[id].phase.Invalidating? || (l.Write? && l.id == id && s.calls[id].phase.Writing?)
    ensures s.calls[id].phase.Invalidating? ==> l != Invalidate(id) && l != Lose(id) && l != Restart
  {
    hide SettleWork, Fresh, Admissible, ReadReceiptStep, PreFaultStep, WriteStep, RecoverStep, PostFaultStep;
    match l
    case ReadReceipt(x) => if x in s.calls && s.calls[x].phase.Reading? { CallStepsNotDue(s, x, false); }
    case TakePreFault(x, open) => if x in s.calls && s.calls[x].phase.PreFault? { CallStepsNotDue(s, x, open); }
    case Recover(x) => if x in s.calls && s.calls[x].phase.Recovering? { CallStepsNotDue(s, x, false); }
    case TakePostFault(x, open) => if x in s.calls && s.calls[x].phase.PostFault? { CallStepsNotDue(s, x, open); }
    case Write(x, shelf, uuid, busy) =>
      if x in s.calls && s.calls[x].phase.Writing? && Fresh(s.db, uuid) {
        WriteDue(m, s, x, Env(shelf, s.clock, uuid, s.calls[x].phase.processing), busy, id);
      }
    case _ =>
  }

  lemma AtStart(h: History)
    ensures h.At(0) == Initial(h.faults, h.clock)
  {
    assert h.labels[..0] == [];
  }

  lemma OwesNext(h: History, w: nat, n: nat)
    requires 0 < n <= |h.labels| && Owes(h, w, n - 1)
    requires var id := h.labels[w].id;
             h.labels[n - 1] != Invalidate(id) && h.labels[n - 1] != Lose(id) && h.labels[n - 1] != Restart
    ensures Owes(h, w, n)
  {
    hide Run;
  }

  lemma {:induction false} DueSince(h: History, n: nat, id: nat)
    requires n <= |h.labels| && id in h.At(n).calls && h.At(n).calls[id].phase.Invalidating?
    ensures exists w: nat :: Owes(h, w, n) && h.labels[w].id == id
  {
    hide Run, Step;
    if n == 0 {
      AtStart(h);
    } else {
      h.AtNext(n - 1);
      DueStep(h.m, h.At(n - 1), h.labels[n - 1], id);
      if h.At(n - 1).calls[id].phase.Invalidating? {
        DueSince(h, n - 1, id);
        var w: nat :| Owes(h, w, n - 1) && h.labels[w].id == id;
        hide Owes;
        OwesNext(h, w, n);
      } else {
        assert Owes(h, n - 1, n);
      }
    }
  }

  lemma {:induction false} OwedStays(h: History, w: nat, n: nat)
    requires Owes(h, w, n)
    ensures h.labels[w].id in h.At(n).calls && h.At(n).calls[h.labels[w].id].phase.Invalidating?
  {
    hide Run, Step;
    if w + 1 < n {
      var id := h.labels[w].id;
      assert Owes(h, w, n - 1);
      OwedStays(h, w, n - 1);
      assert h.labels[n - 1] != Invalidate(id) && h.labels[n - 1] != Lose(id) && h.labels[n - 1] != Restart;
      hide Owes;
      h.AtNext(n - 1);
      DueUntouched(h.m, h.At(n - 1), h.labels[n - 1], id);
    }
  }

  /** A reader stored at step `k` what it had read at step `i`, nothing has dropped it
      since, and some write after the read took stock. */
  ghost predicate StoredStale(h: History, i: nat, k: nat, r: nat, n: nat) {
    StoredFrom(h, i, k, r, n) && TakenSince(h, i, n)
  }

  ghost predicate SomeOwes(h: History, n: nat) { exists w: nat :: Owes(h, w, n) }

  lemma DueExactly(h: History, n: nat)
    requires n <= |h.labels|
    ensures DropDue(h.At(n)) <==> SomeOwes(h, n)
  {
    hide Run, Owes;
    var s := h.At(n);
    if DropDue(s) {
      var id :| id in s.calls && s.calls[id].phase.Invalidating?;
      DueSince(h, n, id);
    }
    if w: nat :| Owes(h, w, n) {
      OwedStays(h, w, n);
    }
  }

  lemma StoredRows(h: History, i: nat, k: nat, r: nat, n: nat)
    requires Sku.Faithful(h.m.rules) && StoredFrom(h, i, k, r, n)
    ensures n <= |h.labels| && h.At(n).cache.Some?
    ensures h.At(n).cache.value != h.At(n).db.deltas <==> TakenSince(h, i, n)
  {
    assert i < n <= |h.labels|;
    hide Run, StoredFrom, TakenSince;
    CachedExactly(h, n);
    RowsGrow(h, i, n);
  }

  /** Staleness over a whole run, exactly. The cache is stale and nothing is due to drop
      it if and only if a reader stored at step `k` what it read at step `i`, nothing has
      dropped it since, some write after the read took stock, and every committed
      caller has dropped the cache or died. */
  lemma StaleExactly(h: History)
    requires Sku.Faithful(h.m.rules)
    ensures var n := |h.labels|;
            !CacheFresh(h.At(n)) <==>
              (exists i: nat, k: nat, r: nat :: StoredStale(h, i, k, r, n)) && !SomeOwes(h, n)
  {
    var n := |h.labels|;
    hide Run, TakenSince, Owes, StoredFrom, DropDue, SomeOwes;
    CachedExactly(h, n);
    DueExactly(h, n);
    forall i: nat, k: nat, r: nat | StoredFrom(h, i, k, r, n)
      ensures h.At(n).cache.Some?
      ensures h.At(n).cache.value != h.At(n).db.deltas <==> TakenSince(h, i, n)
    {
      StoredRows(h, i, k, r, n);
    }
    if h.At(n).cache.Some? && h.At(n).cache.value != h.At(n).db.deltas {
      var i: nat, k: nat, r: nat :| StoredFrom(h, i, k, r, n);
      assert StoredStale(h, i, k, r, n);
    }
  }
}
