/** Which appends the ledger keeps, told from the list of operations alone. */
module LedgerCommits {
  import opened Prelude
  import opened LedgerEncoding
  import opened LedgerChain
  import opened LedgerStore
  import opened LedgerHistory

  // ---- transactions, from the operations alone ----

  predicate Ends<C(!new)>(op: Op<C>, tx: Tx) {
    (op.Commit? || op.Rollback?) && op.tx == tx
  }

  /** Who holds the ledger lock after these operations: whoever appended first since it was last free. */
  function Holder<C(!new)>(ops: seq<Op<C>>): Option<Tx> {
    if ops == [] then None
    else
      var before, op := Holder(ops[..|ops| - 1]), ops[|ops| - 1];
      if op.Append? then (if before.None? then Some(op.tx) else before)
      else if before == Some(op.tx) then None
      else before
  }

  /** Operation i is an append made with the lock held, not one still waiting for it. */
  predicate Made<C(!new)>(ops: seq<Op<C>>, i: int) {
    0 <= i < |ops| && ops[i].Append? && Holder(ops[..i]) in {None, Some(ops[i].tx)}
  }

  /** Operation k is where the transaction of append i ends. */
  ghost predicate EndsAt<C(!new)>(ops: seq<Op<C>>, i: int, k: int) {
    && 0 <= i < k < |ops| && ops[i].Append? && Ends(ops[k], ops[i].tx)
    && forall m | i < m < k :: !Ends(ops[m], ops[i].tx)
  }

  /** No statement of the transaction that ends at k failed. */
  ghost predicate Clean<C(!new)>(ops: seq<Op<C>>, k: int) {
    forall m | 0 <= m < |ops| && Made(ops, m) && EndsAt(ops, m, k) :: !ops[m].fails
  }

  /** Append i is committed: made with the lock held, in a transaction with no failed statement, that
      ends in a commit. */
  ghost predicate IsCommitted<C(!new)>(ops: seq<Op<C>>, i: int) {
    Made(ops, i) && exists k :: EndsAt(ops, i, k) && ops[k].Commit? && Clean(ops, k)
  }

  /** The contents of the committed ones among the first n operations, in order, each once. */
  ghost function CommittedContents<C(!new)>(ops: seq<Op<C>>, n: nat): seq<C>
    requires n <= |ops|
  {
    if n == 0 then [] else CommittedContents(ops, n - 1) + if IsCommitted(ops, n - 1) then [ops[n - 1].content] else []
  }

  lemma {:induction false} CommittedMembers<C(!new)>(ops: seq<Op<C>>, n: nat)
    requires n <= |ops|
    ensures forall x ::
              x in CommittedContents(ops, n) <==> exists i :: 0 <= i < n && IsCommitted(ops, i) && ops[i].content == x
  {
    if n > 0 { CommittedMembers(ops, n - 1); }
  }

  // ---- later operations ----

  lemma HolderOfPrefix<C(!new)>(ops: seq<Op<C>>, op: Op<C>, i: int)
    requires 0 <= i <= |ops|
    ensures (ops + [op])[..i] == ops[..i]
  {
  }

  lemma EndsAtExtends<C(!new)>(ops: seq<Op<C>>, op: Op<C>, i: int, k: int)
    requires k < |ops|
    ensures EndsAt(ops + [op], i, k) <==> EndsAt(ops, i, k)
  {
    var more := ops + [op];
    assert forall m | 0 <= m < |ops| :: more[m] == ops[m];
  }

  lemma MadeExtends<C(!new)>(ops: seq<Op<C>>, op: Op<C>, i: int)
    requires i < |ops|
    ensures Made(ops + [op], i) <==> Made(ops, i)
  {
    if i >= 0 { HolderOfPrefix(ops, op, i); }
  }

  lemma CleanExtends<C(!new)>(ops: seq<Op<C>>, op: Op<C>, k: int)
    requires k < |ops|
    ensures Clean(ops + [op], k) <==> Clean(ops, k)
  {
    var more := ops + [op];
    forall m | 0 <= m < |ops|
      ensures Made(more, m) && EndsAt(more, m, k) <==> Made(ops, m) && EndsAt(ops, m, k)
      ensures more[m] == ops[m]
    {
      MadeExtends(ops, op, m);
      EndsAtExtends(ops, op, m, k);
    }
  }

  /** A committed append stays committed, and one whose transaction has ended otherwise never is. */
  lemma SettledStaysSettled<C(!new)>(ops: seq<Op<C>>, op: Op<C>, i: int)
    requires 0 <= i < |ops|
    ensures IsCommitted(ops, i) ==> IsCommitted(ops + [op], i)
    ensures (exists k :: EndsAt(ops, i, k)) ==> (IsCommitted(ops + [op], i) <==> IsCommitted(ops, i))
  {
    var more := ops + [op];
    MadeExtends(ops, op, i);
    forall k | EndsAt(ops, i, k)
      ensures EndsAt(more, i, k) && (Clean(more, k) <==> Clean(ops, k)) && more[k] == ops[k]
    {
      EndsAtExtends(ops, op, i, k);
      CleanExtends(ops, op, k);
    }
    forall j, k | EndsAt(ops, i, j) && EndsAt(more, i, k) ensures j == k { EndsAtExtends(ops, op, i, j); }
  }

  // ---- the open transaction ----

  /** Append i was made and its transaction has not ended. */
  ghost predicate Open<C(!new)>(ops: seq<Op<C>>, i: int) {
    Made(ops, i) && forall m | i < m < |ops| :: !Ends(ops[m], ops[i].tx)
  }

  ghost predicate Doomed<C(!new)>(ops: seq<Op<C>>) {
    exists i :: Open(ops, i) && ops[i].fails
  }

  ghost function Waiting<C(!new)>(ops: seq<Op<C>>, n: nat): seq<C>
    requires n <= |ops|
  {
    if n == 0 then [] else Waiting(ops, n - 1) + if Open(ops, n - 1) then [ops[n - 1].content] else []
  }

  /** Open appends are the holder's, and come after every settled one. */
  lemma {:induction false} OpenBelongsToHolder<C(!new)>(ops: seq<Op<C>>)
    ensures forall i | Open(ops, i) :: Holder(ops) == Some(ops[i].tx)
    ensures Holder(ops).Some? ==> exists i :: Open(ops, i)
    ensures forall i, j | Open(ops, i) && i < j && Made(ops, j) :: Open(ops, j)
    ensures forall i | Made(ops, i) && !Open(ops, i) :: exists k :: EndsAt(ops, i, k)
  {
    if ops != [] {
      var front, op := ops[..|ops| - 1], ops[|ops| - 1];
      assert ops == front + [op];
      OpenBelongsToHolder(front);
      OpenStep(front, op);
    }
  }

  lemma OpenExtends<C(!new)>(ops: seq<Op<C>>, op: Op<C>, i: int)
    requires i < |ops|
    ensures Open(ops + [op], i) <==> Open(ops, i) && !Ends(op, ops[i].tx)
  {
    var more := ops + [op];
    MadeExtends(ops, op, i);
    assert forall m | 0 <= m < |ops| :: more[m] == ops[m];
    assert more[|ops|] == op;
  }

  lemma OpenLast<C(!new)>(ops: seq<Op<C>>, op: Op<C>)
    ensures Open(ops + [op], |ops|) <==> op.Append? && Holder(ops) in {None, Some(op.tx)}
    ensures Made(ops + [op], |ops|) <==> op.Append? && Holder(ops) in {None, Some(op.tx)}
  {
    assert (ops + [op])[..|ops|] == ops;
  }

  lemma HolderStep<C(!new)>(ops: seq<Op<C>>, op: Op<C>)
    ensures Holder(ops + [op]) ==
            if op.Append? then (if Holder(ops).None? then Some(op.tx) else Holder(ops))
            else if Holder(ops) == Some(op.tx) then None else Holder(ops)
  {
    assert (ops + [op])[..|ops|] == ops;
  }

  lemma OpenStep<C(!new)>(ops: seq<Op<C>>, op: Op<C>)
    requires forall i | Open(ops, i) :: Holder(ops) == Some(ops[i].tx)
    requires Holder(ops).Some? ==> exists i :: Open(ops, i)
    requires forall i, j | Open(ops, i) && i < j && Made(ops, j) :: Open(ops, j)
    requires forall i | Made(ops, i) && !Open(ops, i) :: exists k :: EndsAt(ops, i, k)
    ensures var more := ops + [op];
            && (forall i | Open(more, i) :: Holder(more) == Some(more[i].tx))
            && (Holder(more).Some? ==> exists i :: Open(more, i))
            && (forall i, j | Open(more, i) && i < j && Made(more, j) :: Open(more, j))
            && (forall i | Made(more, i) && !Open(more, i) :: exists k :: EndsAt(more, i, k))
  {
    var more := ops + [op];
    HolderStep(ops, op);
    OpenLast(ops, op);
    forall i | i < |ops|
      ensures Open(more, i) <==> Open(ops, i) && !Ends(op, ops[i].tx)
      ensures Made(more, i) <==> Made(ops, i)
      ensures i >= 0 ==> more[i] == ops[i]
    {
      OpenExtends(ops, op, i);
      MadeExtends(ops, op, i);
    }
    assert more[|ops|] == op;
    forall i | Made(more, i) && !Open(more, i) ensures exists k :: EndsAt(more, i, k) {
      if Open(ops, i) {
        assert EndsAt(more, i, |ops|);
      } else {
        var k :| EndsAt(ops, i, k);
        EndsAtExtends(ops, op, i, k);
      }
    }
    if Holder(more).Some? && !op.Append? {
      var i :| Open(ops, i);
      assert Open(more, i);
    }
    if Holder(more).Some? && op.Append? {
      if Holder(ops).None? { assert Open(more, |ops|); } else { var i :| Open(ops, i); assert Open(more, i); }
    }
  }

  // ---- one more operation ----

  lemma CommittedIsNotOpen<C(!new)>(ops: seq<Op<C>>, i: int)
    requires IsCommitted(ops, i)
    ensures !Open(ops, i)
  {
    var k :| EndsAt(ops, i, k) && ops[k].Commit? && Clean(ops, k);
  }

  /** The fate of the appends already made, when one more operation comes. */
  lemma FateAfter<C(!new)>(ops: seq<Op<C>>, op: Op<C>, i: int)
    requires 0 <= i < |ops|
    ensures !Open(ops, i) ==> (IsCommitted(ops + [op], i) <==> IsCommitted(ops, i))
    ensures Open(ops, i) && !Ends(op, ops[i].tx) ==> !IsCommitted(ops + [op], i)
    ensures Open(ops, i) && Ends(op, ops[i].tx) ==>
              (IsCommitted(ops + [op], i) <==> op.Commit? && Clean(ops + [op], |ops|))
  {
    var more := ops + [op];
    OpenBelongsToHolder(ops);
    MadeExtends(ops, op, i);
    OpenExtends(ops, op, i);
    SettledStaysSettled(ops, op, i);
    assert more[|ops|] == op && more[i] == ops[i];
    if Open(ops, i) {
      if Ends(op, ops[i].tx) {
        assert EndsAt(more, i, |ops|) by { assert forall m | 0 <= m < |ops| :: more[m] == ops[m]; }
        forall k | EndsAt(more, i, k) ensures k == |ops| { if k < |ops| { EndsAtExtends(ops, op, i, k); } }
      } else if IsCommitted(more, i) {
        CommittedIsNotOpen(more, i);
      }
    }
  }

  /** The transaction ending now is clean exactly when nothing open has failed. */
  lemma CleanNow<C(!new)>(ops: seq<Op<C>>, op: Op<C>)
    requires !op.Append? && Holder(ops) == Some(op.tx)
    ensures Clean(ops + [op], |ops|) <==> !Doomed(ops)
  {
    var more := ops + [op];
    OpenBelongsToHolder(ops);
    assert forall m | 0 <= m < |ops| :: more[m] == ops[m];
    assert more[|ops|] == op;
    forall m | 0 <= m < |ops| ensures Made(more, m) && EndsAt(more, m, |ops|) <==> Open(ops, m) {
      MadeExtends(ops, op, m);
      if Open(ops, m) { assert EndsAt(more, m, |ops|); }
    }
  }

  lemma {:induction false} CommitTakesTheOpen<C(!new)>(ops: seq<Op<C>>, op: Op<C>, n: nat)
    requires op.Commit? && Holder(ops) == Some(op.tx) && !Doomed(ops) && n <= |ops|
    ensures CommittedContents(ops + [op], n) == CommittedContents(ops, n) + Waiting(ops, n)
  {
    if n > 0 {
      var i := n - 1;
      CommitTakesTheOpen(ops, op, i);
      FateAfter(ops, op, i);
      CleanNow(ops, op);
      OpenBelongsToHolder(ops);
      assert (ops + [op])[i] == ops[i];
      if IsCommitted(ops, i) {
        CommittedIsNotOpen(ops, i);
        NothingOpenBefore(ops, i, i);
        assert Waiting(ops, i) == [];
      }
    }
  }

  lemma {:induction false} NothingOpenBefore<C(!new)>(ops: seq<Op<C>>, i: nat, n: nat)
    requires i < |ops| && Made(ops, i) && !Open(ops, i) && n <= i
    ensures Waiting(ops, n) == []
  {
    OpenBelongsToHolder(ops);
    if n > 0 { NothingOpenBefore(ops, i, n - 1); }
  }

  /** An operation that ends nothing open leaves the committed ones and the open ones as they were. */
  lemma {:induction false} NothingSettles<C(!new)>(ops: seq<Op<C>>, op: Op<C>, n: nat)
    requires op.Append? || Holder(ops) != Some(op.tx)
    requires n <= |ops|
    ensures CommittedContents(ops + [op], n) == CommittedContents(ops, n) && Waiting(ops + [op], n) == Waiting(ops, n)
  {
    if n > 0 {
      NothingSettles(ops, op, n - 1);
      FateAfter(ops, op, n - 1);
      OpenExtends(ops, op, n - 1);
      OpenBelongsToHolder(ops);
      if Open(ops, n - 1) && IsCommitted(ops, n - 1) { CommittedIsNotOpen(ops, n - 1); }
    }
  }

  /** An end that does not commit, or commits a failed transaction, drops what was open. */
  lemma {:induction false} NothingIsTaken<C(!new)>(ops: seq<Op<C>>, op: Op<C>, n: nat)
    requires !op.Append? && Holder(ops) == Some(op.tx) && (op.Rollback? || Doomed(ops)) && n <= |ops|
    ensures CommittedContents(ops + [op], n) == CommittedContents(ops, n)
  {
    if n > 0 {
      NothingIsTaken(ops, op, n - 1);
      FateAfter(ops, op, n - 1);
      CleanNow(ops, op);
      OpenBelongsToHolder(ops);
      if Open(ops, n - 1) && IsCommitted(ops, n - 1) { CommittedIsNotOpen(ops, n - 1); }
    }
  }

  lemma {:induction false} NothingStaysOpen<C(!new)>(ops: seq<Op<C>>, op: Op<C>, n: nat)
    requires !op.Append? && Holder(ops) == Some(op.tx) && n <= |ops| + 1
    ensures Waiting(ops + [op], n) == []
    ensures n == |ops| + 1 ==> !Doomed(ops + [op])
  {
    OpenBelongsToHolder(ops);
    OpenLast(ops, op);
    forall i | i < |ops| ensures !Open(ops + [op], i) { OpenExtends(ops, op, i); }
    if n > 0 { NothingStaysOpen(ops, op, n - 1); }
  }

  lemma DoomedAfter<C(!new)>(ops: seq<Op<C>>, op: Op<C>)
    requires op.Append? || Holder(ops) != Some(op.tx)
    ensures Doomed(ops + [op]) <==> Doomed(ops) || (op.Append? && Holder(ops) in {None, Some(op.tx)} && op.fails)
  {
    var more := ops + [op];
    OpenBelongsToHolder(ops);
    OpenLast(ops, op);
    assert more[|ops|] == op;
    forall i | 0 <= i < |ops| ensures Open(more, i) <==> Open(ops, i) { OpenExtends(ops, op, i); }
    if i :| Open(ops, i) && ops[i].fails { assert Open(more, i) && more[i].fails; }
    if op.Append? && Holder(ops) in {None, Some(op.tx)} && op.fails { assert Open(more, |ops|) && more[|ops|].fails; }
  }

  // ---- the ledger keeps exactly the committed appends ----

  ghost predicate Matches<C(!new)>(s: Scheme<C>, ops: seq<Op<C>>, l: Ledger<C>) {
    && l.holder == Holder(ops) && (l.doomed <==> Doomed(ops))
    && l.rows == Built(s, CommittedContents(ops, |ops|))
    && (!l.doomed ==> l.rows + l.pending == Built(s, CommittedContents(ops, |ops|) + Waiting(ops, |ops|)))
  }

  /** The newest operation commits nothing of its own, and is open if it is an append that was made. */
  lemma NewestOperation<C(!new)>(ops: seq<Op<C>>, op: Op<C>)
    ensures var more, n := ops + [op], |ops|;
            && CommittedContents(more, n + 1) == CommittedContents(more, n)
            && Waiting(more, n + 1) == Waiting(more, n) +
                 if op.Append? && Holder(ops) in {None, Some(op.tx)} then [op.content] else []
  {
    var more, n := ops + [op], |ops|;
    assert more[n] == op;
    OpenLast(ops, op);
    forall k ensures !EndsAt(more, n, k) {}
    assert CommittedContents(more, n) + [] == CommittedContents(more, n);
  }

  lemma PendingGrows<C(!new)>(s: Scheme<C>, l: Ledger<C>, x: C, xs: seq<C>)
    requires l.rows + l.pending == Built(s, xs)
    ensures l.rows + Grow(s, l.rows + l.pending, x)[|l.rows|..] == Built(s, xs + [x])
  {
    BuiltGrows(s, xs, x);
    var grown := Grow(s, l.rows + l.pending, x);
    assert l.rows + grown[|l.rows|..] == grown;
  }

  lemma AppendMatches<C(!new)>(s: Scheme<C>, ops: seq<Op<C>>, l: Ledger<C>, op: Op<C>)
    requires Matches(s, ops, l) && op.Append?
    ensures Matches(s, ops + [op], Apply(s, l, op))
  {
    var n, l' := |ops|, Apply(s, l, op);
    var kept, open := CommittedContents(ops, n), Waiting(ops, n);
    HolderStep(ops, op);
    NothingSettles(ops, op, n);
    NewestOperation(ops, op);
    DoomedAfter(ops, op);
    if l.holder.Some? && l.holder.value != op.tx {
      assert open + [] == open;
    } else if !l'.doomed {
      PendingGrows(s, l, op.content, kept + open);
      assert kept + (open + [op.content]) == kept + open + [op.content];
    }
  }

  lemma EndMatches<C(!new)>(s: Scheme<C>, ops: seq<Op<C>>, l: Ledger<C>, op: Op<C>)
    requires Matches(s, ops, l) && !op.Append?
    ensures Matches(s, ops + [op], Apply(s, l, op))
  {
    var more, n, l' := ops + [op], |ops|, Apply(s, l, op);
    HolderStep(ops, op);
    NewestOperation(ops, op);
    if l.holder != Some(op.tx) {
      NothingSettles(ops, op, n);
      DoomedAfter(ops, op);
      assert Waiting(ops, n) + [] == Waiting(ops, n);
    } else {
      NothingStaysOpen(ops, op, n + 1);
      if op.Commit? && !l.doomed { CommitTakesTheOpen(ops, op, n); } else { NothingIsTaken(ops, op, n); }
      assert l'.rows + l'.pending == l'.rows;
      assert CommittedContents(more, n + 1) + [] == CommittedContents(more, n + 1);
    }
  }

  lemma {:induction false} LedgerMatches<C(!new)>(s: Scheme<C>, ops: seq<Op<C>>)
    ensures Matches(s, ops, RunOps(s, ops))
  {
    if ops == [] {
      var none: seq<Entry<C>> := [];
      assert none + none == none;
      var nothing: seq<C> := [];
      assert nothing + nothing == nothing;
    } else {
      var front, op := ops[..|ops| - 1], ops[|ops| - 1];
      assert ops == front + [op];
      LedgerMatches(s, front);
      if op.Append? {
        AppendMatches(s, front, RunOps(s, front), op);
      } else {
        EndMatches(s, front, RunOps(s, front), op);
      }
    }
  }

  /** The rows of every reachable ledger are those of exactly the committed appends, in order, each once. */
  lemma LedgerHoldsExactlyTheCommitted<C(!new)>(s: Scheme<C>, ops: seq<Op<C>>)
    ensures RunOps(s, ops).rows == Built(s, CommittedContents(ops, |ops|))
    ensures RunOps(s, ops).holder == Holder(ops)
  {
    LedgerMatches(s, ops);
  }

  /** What is committed stays, whatever follows: later ledgers only add rows after these. */
  lemma {:induction false} CommittedRowsStay<C(!new)>(s: Scheme<C>, ops: seq<Op<C>>, more: seq<Op<C>>)
    ensures RunOps(s, ops).rows <= RunOps(s, ops + more).rows
  {
    if more == [] {
      assert ops + more == ops;
    } else {
      CommittedRowsStay(s, ops, more[..|more| - 1]);
      assert (ops + more)[..|ops + more| - 1] == ops + more[..|more| - 1];
    }
  }

  /** An append whose transaction was rolled back, or held a failed statement, is in no later ledger. */
  lemma {:induction false} DroppedStaysDropped<C(!new)>(ops: seq<Op<C>>, more: seq<Op<C>>, i: int, k: int)
    requires EndsAt(ops, i, k) && (ops[k].Rollback? || !Clean(ops, k))
    ensures !IsCommitted(ops + more, i)
  {
    if more == [] {
      assert ops + more == ops;
      forall j | EndsAt(ops, i, j) ensures j == k {}
    } else {
      var front := ops + more[..|more| - 1];
      DroppedStaysDropped(ops, more[..|more| - 1], i, k);
      assert ops + more == front + [more[|more| - 1]];
      EndsAtLater(ops, more[..|more| - 1], i, k);
      SettledStaysSettled(front, more[|more| - 1], i);
    }
  }

  lemma EndsAtLater<C(!new)>(ops: seq<Op<C>>, more: seq<Op<C>>, i: int, k: int)
    requires EndsAt(ops, i, k)
    ensures EndsAt(ops + more, i, k)
  {
    assert forall m | 0 <= m < |ops| :: (ops + more)[m] == ops[m];
  }
}
