/** The audit ledger itself: what the chain and the store promise, at the encoding the program uses. */
module AuditLedger {
  import opened LedgerEncoding
  import opened LedgerChain
  import opened LedgerStore
  import opened LedgerHistory
  import opened LedgerCommits

  type Row = Entry<Content>

  /** Two ledgers a range check accepts from the same start, whose first n rows end in the same
      hash, have the same first n rows in everything the hash covers. */
  lemma HeadHashPinsTheLedger(c: Codec, a: seq<Row>, b: seq<Row>, start: Bytes, n: nat)
    requires StampsDiffer(c) && MachineSized(a) && MachineSized(b) && n <= |a| && n <= |b|
    requires Chained(LedgerScheme(c), a, start) && Chained(LedgerScheme(c), b, start)
    requires Before(a, start, n) == Before(b, start, n)
    requires NoCollisions(LedgerScheme(c), a, b, start)
    ensures forall i | 0 <= i < n ::
              a[i].seqNo == b[i].seqNo && Committed(a[i].content) == Committed(b[i].content) &&
              a[i].hash == b[i].hash && a[i].prevHash == b[i].prevHash
  {
    var s := LedgerScheme(c);
    LedgerSchemeIsFaithful(c);
    HeadHashPinsHistory(s, a, b, start, n);
    forall i | 0 <= i < n ensures Committed(a[i].content) == Committed(b[i].content) { assert Agree(s, a[i], b[i]); }
  }

  ghost predicate AllStorable(ops: seq<Op<Content>>) {
    forall i | 0 <= i < |ops| :: ops[i].Append? ==> Storable(ops[i].content)
  }

  lemma ReachableLedgerIsSound(c: Codec, ops: seq<Op<Content>>)
    requires AllStorable(ops)
    ensures Sound(LedgerScheme(c), RunOps(LedgerScheme(c), ops).rows)
  {
    LedgerSchemeDependsOnCommitted(c);
    forall i | 0 <= i < |ops| && ops[i].Append? ensures Kept(LedgerScheme(c), ops[i].content) {
      KeptMeansStorable(c, ops[i].content);
    }
    EveryReachableLedgerIsSound(LedgerScheme(c), ops);
  }

  /** Whatever appends, commits and rollbacks led to it, every range request on the ledger that is
      not inverted is answered Intact. Nothing is asked of the rendering or of the hash. */
  lemma EveryReachableLedgerVerifies(c: Codec, ops: seq<Op<Content>>, from: int, to: int, top: int, r: Check)
    requires AllStorable(ops)
    requires Replies(LedgerScheme(c), TableOf(RunOps(LedgerScheme(c), ops).rows), from, to, top, r)
    ensures if 0 < to < Lo(from) then r == BadRange else r.Checked? && r.result.Intact?
  {
    var rows := RunOps(LedgerScheme(c), ops).rows;
    ReachableLedgerIsSound(c, ops);
    if r.Checked? { EveryRangeIsIntact(LedgerScheme(c), rows, Lo(from), Hi(to, top), r.result); }
  }

  /** A row whose identifiers include the nil one is accepted by Append and fails once read back;
      every other row survives. */
  lemma RowVerifiesExactlyWhenStorable(c: Codec, x: Content, seqNo: int, prev: Bytes)
    requires StampsDiffer(c) && Int64(seqNo)
    requires NoCollision(c.sha, Encode(c, prev, seqNo, x), Encode(c, prev, seqNo, Stored(x)))
    ensures Links(LedgerScheme(c), prev, Linked(LedgerScheme(c), x, seqNo, prev)) <==> Storable(x)
  {
    LedgerSchemeIsFaithful(c);
    KeptMeansStorable(c, x);
    RowSurvivesStorage(LedgerScheme(c), x, seqNo, prev);
  }

  /** Changing a row of a reachable ledger that is not its newest, in anything the hash covers, is
      reported at that row or the next by every range that covers both. */
  lemma AlteredLedgerRowIsReported(
      c: Codec, ops: seq<Op<Content>>, lo: int, k: int, hi: int, forged: Row, v: Verification)
    requires StampsDiffer(c) && AllStorable(ops)
    requires var rows := RunOps(LedgerScheme(c), ops).rows;
             && 1 <= lo <= k < hi && k < |rows| && Int64(k)
             && forged.seqNo == k && !Agree(LedgerScheme(c), forged, rows[k - 1])
             && NoCollision(c.sha, Encode(c, Before(rows, [], k - 1), k, rows[k - 1].content),
                                   Encode(c, Before(rows, [], k - 1), k, forged.content))
             && Answers(LedgerScheme(c), TableOf(rows)[k := forged], lo, hi, v)
    ensures v.Broken? && (v.at == k || v.at == k + 1)
  {
    ReachableLedgerIsSound(c, ops);
    LedgerSchemeIsFaithful(c);
    AlteredRowIsReported(LedgerScheme(c), RunOps(LedgerScheme(c), ops).rows, lo, k, hi, forged, v);
  }

  /** Deleting row k of a reachable ledger is reported as row k missing by every range that covers
      it and some later row still there. */
  lemma DeletedLedgerRowIsReported(
      c: Codec, ops: seq<Op<Content>>, lo: int, k: int, later: int, hi: int, v: Verification)
    requires AllStorable(ops)
    requires var rows := RunOps(LedgerScheme(c), ops).rows;
             1 <= lo <= k < later <= hi && later <= |rows| && Answers(LedgerScheme(c), TableOf(rows) - {k}, lo, hi, v)
    ensures v.Broken? && v.at == k && v.why == MissingRow
  {
    var rows := RunOps(LedgerScheme(c), ops).rows;
    ReachableLedgerIsSound(c, ops);
    MissingRowIsReported(LedgerScheme(c), TableOf(rows) - {k}, |rows|, lo, k, later, hi, v);
  }

  /** Replacing the newest row of a reachable ledger by one computed for it is not reported. */
  lemma NewestLedgerRowCanBeReplaced(c: Codec, ops: seq<Op<Content>>, x: Content, lo: int, hi: int, v: Verification)
    requires AllStorable(ops) && Storable(x) && lo >= 1 && RunOps(LedgerScheme(c), ops).rows != []
    requires var s := LedgerScheme(c); var rows := RunOps(s, ops).rows; var n := |rows|;
             Answers(s, TableOf(rows)[n := Linked(s, x, n, HeadHash(rows[..n - 1]))], lo, hi, v)
    ensures v.Intact?
  {
    ReachableLedgerIsSound(c, ops);
    LedgerSchemeDependsOnCommitted(c);
    KeptMeansStorable(c, x);
    NewestRowCanBeReplaced(LedgerScheme(c), RunOps(LedgerScheme(c), ops).rows, x, lo, hi, v);
  }

  /** Without that hypothesis: a reachable ledger holds exactly the committed appends, and checking the
      whole of it answers Intact exactly when none of them has a nil optional identifier. */
  lemma ReachableLedgerVerifiesExactlyWhen(c: Codec, ops: seq<Op<Content>>, v: Verification)
    requires StampsDiffer(c)
    requires var xs := CommittedContents(ops, |ops|);
             && Int64(|xs|) && NoStorageCollisions(LedgerScheme(c), xs)
             && Answers(LedgerScheme(c), TableOf(RunOps(LedgerScheme(c), ops).rows), 1, |xs|, v)
    ensures v.Intact? <==> forall i | 0 <= i < |ops| && IsCommitted(ops, i) :: Storable(ops[i].content)
  {
    var s, xs := LedgerScheme(c), CommittedContents(ops, |ops|);
    LedgerHoldsExactlyTheCommitted(s, ops);
    LedgerSchemeIsFaithful(c);
    BuiltIsSoundExactlyWhen(s, xs);
    BuiltIsNumbered(s, xs);
    forall x | x in xs ensures Kept(s, x) <==> Storable(x) { KeptMeansStorable(c, x); }
    WholeCheckDecides(s, xs, v);
    CommittedMembers(ops, |ops|);
  }
}
