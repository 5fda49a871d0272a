/** packages/audit/src/ledger.ts: the append-only, hash-chained audit ledger. */
module Ledger {
  import opened Wrappers
  import opened Json
  import opened AuditEntry

  // --- the chain ---------------------------------------------------------------------------

  ghost predicate WellformedLedger(entries: seq<Entry>) {
    forall i :: 0 <= i < |entries| ==> WellformedContent(entries[i].content)
  }

  function HashBefore(entries: seq<Entry>, i: nat): Text
    requires i <= |entries|
  {
    if i == 0 then [] else entries[i - 1].hash
  }

  /** The link and the hash of the i-th entry both check out. */
  predicate Intact(hash: Hasher, entries: seq<Entry>, i: nat)
    requires i < |entries|
  {
    entries[i].content.previousHash == HashBefore(entries, i) && hash(entries[i].content) == entries[i].hash
  }

  ghost predicate Verified(hash: Hasher, entries: seq<Entry>) {
    forall i :: 0 <= i < |entries| ==> Intact(hash, entries, i)
  }

  ghost predicate SameEntry(a: Entry, b: Entry) {
    SameContent(a.content, b.content) && a.hash == b.hash
  }

  ghost predicate SameLedger(a: seq<Entry>, b: seq<Entry>) {
    |a| == |b| && forall i :: 0 <= i < |a| ==> SameEntry(a[i], b[i])
  }

  ghost predicate BreaksAs(hash: Hasher, entries: seq<Entry>, i: nat, n: int) {
    i < |entries| && !Intact(hash, entries, i) && entries[i].content.sequence == n
  }

  /** The sequence numbers of the broken entries among the first `k`. */
  ghost function BrokenAmong(hash: Hasher, entries: seq<Entry>, k: nat): seq<int>
    requires k <= |entries|
  {
    if k == 0 then []
    else
      BrokenAmong(hash, entries, k - 1)
        + (if Intact(hash, entries, k - 1) then [] else [entries[k - 1].content.sequence])
  }

  /** `verify` reports the sequence number of every entry that fails to check out, and no other. */
  lemma {:induction false} BrokenAmongExact(hash: Hasher, entries: seq<Entry>, k: nat, n: int)
    requires k <= |entries|
    ensures n in BrokenAmong(hash, entries, k) <==> exists i: nat :: i < k && BreaksAs(hash, entries, i, n)
  {
    if k > 0 {
      BrokenAmongExact(hash, entries, k - 1, n);
      var before := BrokenAmong(hash, entries, k - 1);
      if n in before {
        var i: nat :| i < k - 1 && BreaksAs(hash, entries, i, n);
        assert i < k && BreaksAs(hash, entries, i, n);
      } else if !Intact(hash, entries, k - 1) && entries[k - 1].content.sequence == n {
        assert BreaksAs(hash, entries, k - 1, n);
      }
    }
  }

  /** It reports nothing exactly when every entry checks out. */
  lemma {:induction false} NoneBroken(hash: Hasher, entries: seq<Entry>, k: nat)
    requires k <= |entries|
    ensures BrokenAmong(hash, entries, k) == [] <==> forall i :: 0 <= i < k ==> Intact(hash, entries, i)
  {
    if k > 0 {
      NoneBroken(hash, entries, k - 1);
      var before := BrokenAmong(hash, entries, k - 1);
      assert before + [] == before;
      assert before + [entries[k - 1].content.sequence] != [];
    }
  }

  method Verify(hash: Hasher, entries: seq<Entry>) returns (valid: bool, entryCount: nat, brokenAt: seq<int>)
    ensures brokenAt == BrokenAmong(hash, entries, |entries|)
    ensures valid <==> Verified(hash, entries)
    ensures entryCount == |entries|
  {
    brokenAt := [];
    var previousHash: Text := [];
    for i := 0 to |entries|
      invariant previousHash == HashBefore(entries, i)
      invariant brokenAt == BrokenAmong(hash, entries, i)
    {
      var entry := entries[i];
      if entry.content.previousHash != previousHash || hash(entry.content) != entry.hash {
        brokenAt := brokenAt + [entry.content.sequence];
      }
      previousHash := entry.hash;
    }
    NoneBroken(hash, entries, |entries|);
    valid := brokenAt == [];
    entryCount := |entries|;
  }

  lemma PrefixVerified(hash: Hasher, entries: seq<Entry>)
    requires entries != [] && Verified(hash, entries) && WellformedLedger(entries)
    ensures Verified(hash, entries[..|entries| - 1]) && WellformedLedger(entries[..|entries| - 1])
  {
    var init := entries[..|entries| - 1];
    forall i | 0 <= i < |init| ensures Intact(hash, init, i) {
      assert Intact(hash, entries, i);
    }
  }

  lemma SameLedgerExtends(a: seq<Entry>, b: seq<Entry>)
    requires a != [] && b != [] && SameLedger(a[..|a| - 1], b[..|b| - 1]) && SameEntry(a[|a| - 1], b[|b| - 1])
    ensures SameLedger(a, b)
  {
    forall i | 0 <= i < |a| ensures SameEntry(a[i], b[i]) {
      if i < |a| - 1 {
        assert SameEntry(a[..|a| - 1][i], b[..|b| - 1][i]);
      }
    }
  }

  lemma OnlyEmptyEndsEmpty(hash: Hasher, entries: seq<Entry>)
    requires Commits(hash) && Verified(hash, entries)
    ensures HashBefore(entries, |entries|) == [] <==> entries == []
  {
    if entries != [] {
      assert Intact(hash, entries, |entries| - 1);
    }
  }

  /**
   * The last hash commits to the whole history: two ledgers that verify and end in the same hash
   * are the same, entry by entry. No two lengths can share it either, since no hash is empty.
   */
  lemma {:induction false} LastHashCommits(hash: Hasher, a: seq<Entry>, b: seq<Entry>)
    requires Commits(hash)
    requires Verified(hash, a) && Verified(hash, b) && WellformedLedger(a) && WellformedLedger(b)
    requires HashBefore(a, |a|) == HashBefore(b, |b|)
    ensures SameLedger(a, b)
    decreases |a|
  {
    OnlyEmptyEndsEmpty(hash, a);
    OnlyEmptyEndsEmpty(hash, b);
    if a != [] {
      var m, n := |a| - 1, |b| - 1;
      LastEntriesAgree(hash, a, b);
      PrefixVerified(hash, a);
      PrefixVerified(hash, b);
      LastHashCommits(hash, a[..m], b[..n]);
      SameLedgerExtends(a, b);
    }
  }

  lemma LastEntriesAgree(hash: Hasher, a: seq<Entry>, b: seq<Entry>)
    requires Commits(hash) && a != [] && b != []
    requires Verified(hash, a) && Verified(hash, b) && WellformedLedger(a) && WellformedLedger(b)
    requires HashBefore(a, |a|) == HashBefore(b, |b|)
    ensures SameEntry(a[|a| - 1], b[|b| - 1])
    ensures HashBefore(a[..|a| - 1], |a| - 1) == HashBefore(b[..|b| - 1], |b| - 1)
  {
    var m, n := |a| - 1, |b| - 1;
    assert Intact(hash, a, m) && Intact(hash, b, n);
    assert HashBefore(a[..m], m) == HashBefore(a, m) && HashBefore(b[..n], n) == HashBefore(b, n);
  }

  /** Altering, removing or reordering entries while keeping the last hash is detected. */
  lemma TamperingIsDetected(hash: Hasher, original: seq<Entry>, altered: seq<Entry>)
    requires Commits(hash)
    requires Verified(hash, original) && WellformedLedger(original) && WellformedLedger(altered)
    requires HashBefore(original, |original|) == HashBefore(altered, |altered|) && !SameLedger(original, altered)
    ensures exists i :: 0 <= i < |altered| && !Intact(hash, altered, i)
  {
    if forall i :: 0 <= i < |altered| ==> Intact(hash, altered, i) {
      LastHashCommits(hash, original, altered);
    }
  }

  /** The same for the digest the ledger really uses. */
  lemma LastDigestCommits(h: Digest, a: seq<Entry>, b: seq<Entry>)
    requires Injective(h) && forall t :: h(t) != []
    requires Verified(Hashing(h), a) && Verified(Hashing(h), b) && WellformedLedger(a) && WellformedLedger(b)
    requires HashBefore(a, |a|) == HashBefore(b, |b|)
    ensures SameLedger(a, b)
  {
    HashingCommits(h);
    LastHashCommits(Hashing(h), a, b);
  }

  // --- appending ---------------------------------------------------------------------------

  datatype AppendInput = AppendInput(
    actor: Option<Actor>, action: Text, resource: Option<Text>, outcome: Option<Outcome>,
    correlationId: Option<Text>, details: Option<seq<Member>>)

  /** The entry `appendUnsafe` builds on the entry it read as last. */
  function NextEntry(hash: Hasher, previous: Option<Entry>, input: AppendInput, id: Text, now: int): Entry {
    var content := Content(
      id,
      (if previous.Some? then previous.value.content.sequence else 0) + 1,
      now,
      input.actor.GetOr(Actor(None, None, None, None, Some([115, 121, 115, 116, 101, 109]))),
      input.action, input.resource, input.outcome.GetOr(Outcome.Success), input.correlationId, input.details,
      if previous.Some? then previous.value.hash else []);
    Entry(content, hash(content))
  }

  /** The entry keeps what the caller gave; what the caller left out has its default. */
  ghost predicate Records(e: Entry, input: AppendInput, id: Text, now: int) {
    var c := e.content;
    && c.action == input.action && c.resource == input.resource
    && c.correlationId == input.correlationId && c.details == input.details
    && (input.outcome.Some? ==> c.outcome == input.outcome.value)
    && (input.outcome.None? ==> c.outcome.Success?)
    && (input.actor.Some? ==> c.actor == input.actor.value)
    && (input.actor.None? ==> IsSystem(c.actor))
    && c.id == id && c.timestamp == now
  }

  /** `{ kind: "system" }` and nothing else. */
  ghost predicate IsSystem(a: Actor) {
    && a.userId.None? && a.agentId.None? && a.orgId.None? && a.projectId.None?
    && a.kind == Some(Units("system"))
  }

  lemma NextEntryRecords(hash: Hasher, previous: Option<Entry>, input: AppendInput, id: Text, now: int)
    ensures Records(NextEntry(hash, previous, input, id, now), input, id, now)
  {
    assert Units("system") == [115, 121, 115, 116, 101, 109];
  }

  function Last(entries: seq<Entry>): Option<Entry> {
    if entries == [] then None else Some(entries[|entries| - 1])
  }

  /** Stored sequences are 1..n. */
  ghost predicate Sequenced(entries: seq<Entry>) {
    forall i :: 0 <= i < |entries| ==> entries[i].content.sequence == i + 1
  }

  lemma NextEntryExtends(hash: Hasher, entries: seq<Entry>, input: AppendInput, id: Text, now: int)
    requires Verified(hash, entries) && Sequenced(entries)
    ensures Verified(hash, entries + [NextEntry(hash, Last(entries), input, id, now)])
    ensures Sequenced(entries + [NextEntry(hash, Last(entries), input, id, now)])
  {
    var longer := entries + [NextEntry(hash, Last(entries), input, id, now)];
    forall i | 0 <= i < |longer| ensures Intact(hash, longer, i) {
      if i < |entries| {
        assert Intact(hash, entries, i);
      }
    }
  }

  /** Two appends that read the same last entry, written one after the other, fork the chain. */
  lemma UnserialisedAppendsFork(hash: Hasher, entries: seq<Entry>, a: AppendInput, b: AppendInput, idA: Text,
                                idB: Text, now: int)
    requires Commits(hash) && Verified(hash, entries) && WellformedLedger(entries)
    requires (a.details.Some? ==> WellformedContent(NextEntry(hash, Last(entries), a, idA, now).content))
    ensures
      var first := NextEntry(hash, Last(entries), a, idA, now);
      var second := NextEntry(hash, Last(entries), b, idB, now);
      !Verified(hash, entries + [first] + [second]) && first.content.sequence == second.content.sequence
  {
    var first := NextEntry(hash, Last(entries), a, idA, now);
    var second := NextEntry(hash, Last(entries), b, idB, now);
    var forked := entries + [first] + [second];
    var n := |entries|;
    HashIsNew(hash, entries, first.content);
    // The second entry links past the first, to the hash before it.
    assert second.content.previousHash == HashBefore(entries, n) && HashBefore(forked, n + 1) == first.hash;
    assert !Intact(hash, forked, n + 1);
  }

  /** An entry with the next sequence number never hashes to the hash it follows. */
  lemma HashIsNew(hash: Hasher, entries: seq<Entry>, c: Content)
    requires Commits(hash) && Verified(hash, entries) && WellformedLedger(entries) && WellformedContent(c)
    requires entries != [] ==> c.sequence == entries[|entries| - 1].content.sequence + 1
    ensures hash(c) != HashBefore(entries, |entries|)
  {
    if entries != [] {
      var last := entries[|entries| - 1];
      assert Intact(hash, entries, |entries| - 1);
      assert c.(details := None).sequence != last.content.(details := None).sequence;
      assert !SameContent(c, last.content);
    }
  }

  // --- callers, the promise chain and the store as one machine -----------------------------

  /**
   * An append waits for the turn it was chained on, then reads the last entry, then writes; reads and
   * writes may reject.
   */
  datatype Phase = Waiting | Holding(last: Option<Entry>) | Settled

  /** One call of `appendUnsafe`; `behind` is the turn whose promise was `tail` when it was chained, if any. */
  datatype Turn = Turn(input: AppendInput, behind: Option<nat>, phase: Phase)

  /** `tail` is the turn whose promise the field holds; none stands for the promise resolved from the start. */
  datatype LedgerState = LedgerState(entries: seq<Entry>, turns: seq<Turn>, tail: Option<nat>)

  datatype LedgerMove =
    | Call(input: AppendInput)                          // append: chained on the tail, which moves to it
    | ReadLast(turn: nat)                               // the store answers last()
    | ReadFails(turn: nat)                              // ... or rejects
    | Write(turn: nat, id: Text, now: int, stored: bool) // the store appends, or rejects without storing

  const NOTHING_YET := LedgerState([], [], None)

  /** What `then` waits for: the promise chained on has settled, either way. */
  predicate Released(s: LedgerState, behind: Option<nat>) {
    behind.None? || (behind.value < |s.turns| && s.turns[behind.value].phase.Settled?)
  }

  predicate MayRead(s: LedgerState, k: nat) {
    k < |s.turns| && s.turns[k].phase.Waiting? && Released(s, s.turns[k].behind)
  }

  predicate MayWrite(s: LedgerState, k: nat) {
    k < |s.turns| && s.turns[k].phase.Holding?
  }

  /** No move looks at any turn but its own and the one it is chained on. */
  predicate Possible(s: LedgerState, m: LedgerMove) {
    match m
    case Call(input) => input.action != []
    case ReadLast(k) => MayRead(s, k)
    case ReadFails(k) => MayRead(s, k)
    case Write(k, _, _, _) => MayWrite(s, k)
  }

  function WithPhase(s: LedgerState, k: nat, phase: Phase): LedgerState
    requires k < |s.turns|
  {
    s.(turns := s.turns[k := s.turns[k].(phase := phase)])
  }

  function Built(hash: Hasher, s: LedgerState, k: nat, id: Text, now: int): Entry
    requires MayWrite(s, k)
  {
    NextEntry(hash, s.turns[k].phase.last, s.turns[k].input, id, now)
  }

  function Moved(hash: Hasher, s: LedgerState, m: LedgerMove): LedgerState
    requires Possible(s, m)
  {
    match m
    case Call(input) => s.(turns := s.turns + [Turn(input, s.tail, Waiting)], tail := Some(|s.turns|))
    case ReadLast(k) => WithPhase(s, k, Holding(Last(s.entries)))
    case ReadFails(k) => WithPhase(s, k, Settled)
    case Write(k, id, now, stored) =>
      WithPhase(s, k, Settled).(entries := if stored then s.entries + [Built(hash, s, k, id, now)] else s.entries)
  }

  /** The chain the calls leave behind: each turn is behind the one before it, and the tail is the newest. */
  ghost predicate Chained(s: LedgerState) {
    && s.tail == (if s.turns == [] then None else Some(|s.turns| - 1))
    && forall k :: 0 <= k < |s.turns| ==> s.turns[k].behind == if k == 0 then None else Some(k - 1)
  }

  /** A turn that has begun leaves nothing unsettled before it. */
  ghost predicate InOrder(s: LedgerState) {
    forall j, k :: 0 <= j < k < |s.turns| && !s.turns[k].phase.Waiting? ==> s.turns[j].phase.Settled?
  }

  /** What a turn has read is still the last entry. */
  ghost predicate UpToDate(s: LedgerState) {
    forall k :: 0 <= k < |s.turns| && s.turns[k].phase.Holding? ==> s.turns[k].phase.last == Last(s.entries)
  }

  ghost predicate LedgerInv(hash: Hasher, s: LedgerState) {
    Verified(hash, s.entries) && Sequenced(s.entries) && Chained(s) && InOrder(s) && UpToDate(s)
  }

  /** At most one turn is between its read and its write. */
  lemma OneTurnAtATime(s: LedgerState, j: nat, k: nat)
    requires InOrder(s) && MayWrite(s, j) && MayWrite(s, k)
    ensures j == k
  {
  }

  lemma ReleasedMeansFirst(s: LedgerState, k: nat)
    requires Chained(s) && InOrder(s) && MayRead(s, k)
    ensures forall j :: 0 <= j < k ==> s.turns[j].phase.Settled?
    ensures forall j :: k < j < |s.turns| ==> s.turns[j].phase.Waiting?
  {
  }

  lemma ReadKeepsOrder(s: LedgerState, k: nat, phase: Phase)
    requires Chained(s) && InOrder(s) && UpToDate(s) && MayRead(s, k)
    requires phase.Settled? || phase == Holding(Last(s.entries))
    ensures var t := WithPhase(s, k, phase); Chained(t) && InOrder(t) && UpToDate(t)
  {
    ReleasedMeansFirst(s, k);
  }

  lemma WriteKeepsOrder(s: LedgerState, k: nat, entries: seq<Entry>)
    requires Chained(s) && InOrder(s) && MayWrite(s, k)
    ensures var t := WithPhase(s, k, Settled).(entries := entries); Chained(t) && InOrder(t) && UpToDate(t)
  {
    forall j | 0 <= j < |s.turns| && j != k ensures !MayWrite(s, j) {
      if j < k {
        assert s.turns[j].phase.Settled?;
      }
    }
  }

  lemma MoveKeepsLedger(hash: Hasher, s: LedgerState, m: LedgerMove)
    requires LedgerInv(hash, s) && Possible(s, m)
    ensures LedgerInv(hash, Moved(hash, s, m))
    ensures s.entries <= Moved(hash, s, m).entries
  {
    match m
    case Call(input) =>
    case ReadLast(k) => ReadKeepsOrder(s, k, Holding(Last(s.entries)));
    case ReadFails(k) => ReadKeepsOrder(s, k, Settled);
    case Write(k, id, now, stored) =>
      assert s.turns[k].phase.last == Last(s.entries);
      NextEntryExtends(hash, s.entries, s.turns[k].input, id, now);
      WriteKeepsOrder(s, k, Moved(hash, s, m).entries);
  }

  ghost function LedgerRun(hash: Hasher, moves: seq<LedgerMove>): Option<LedgerState> {
    if moves == [] then Some(NOTHING_YET)
    else
      match LedgerRun(hash, moves[..|moves| - 1])
      case None => None
      case Some(s) => if Possible(s, moves[|moves| - 1]) then Some(Moved(hash, s, moves[|moves| - 1])) else None
  }

  lemma {:induction false} RunKeepsLedger(hash: Hasher, moves: seq<LedgerMove>)
    requires LedgerRun(hash, moves).Some?
    ensures LedgerInv(hash, LedgerRun(hash, moves).value)
  {
    if moves != [] {
      var init := moves[..|moves| - 1];
      RunKeepsLedger(hash, init);
      MoveKeepsLedger(hash, LedgerRun(hash, init).value, moves[|moves| - 1]);
    }
  }

  /**
   * However callers interleave and whichever reads and writes fail, at most one turn is between its
   * read and its write, and the stored chain is gapless, unforked and verifies.
   */
  lemma EveryInterleavingVerifies(hash: Hasher, moves: seq<LedgerMove>)
    requires LedgerRun(hash, moves).Some?
    ensures var s := LedgerRun(hash, moves).value;
      && Verified(hash, s.entries) && Sequenced(s.entries)
      && forall j: nat, k: nat :: MayWrite(s, j) && MayWrite(s, k) ==> j == k
  {
    RunKeepsLedger(hash, moves);
    var s := LedgerRun(hash, moves).value;
    forall j: nat, k: nat | MayWrite(s, j) && MayWrite(s, k) ensures j == k {
      OneTurnAtATime(s, j, k);
    }
  }

  // --- what a run stores -------------------------------------------------------------------

  /** The inputs of the calls, in the order of the calls. */
  ghost function CallInputs(moves: seq<LedgerMove>): seq<AppendInput> {
    if moves == [] then []
    else
      var init, last := moves[..|moves| - 1], moves[|moves| - 1];
      if last.Call? then CallInputs(init) + [last.input] else CallInputs(init)
  }

  /** The writes the store accepted, in the order they were made. */
  ghost function StoredWrites(moves: seq<LedgerMove>): seq<LedgerMove> {
    if moves == [] then []
    else
      var init, last := moves[..|moves| - 1], moves[|moves| - 1];
      if last.Write? && last.stored then StoredWrites(init) + [last] else StoredWrites(init)
  }

  /** The turns have the inputs of the calls; the stored entries record those of the turns whose write was stored. */
  ghost predicate Accounted(s: LedgerState, inputs: seq<AppendInput>, writes: seq<LedgerMove>) {
    && |s.turns| == |inputs| && |s.entries| == |writes|
    && (forall k :: 0 <= k < |inputs| ==> s.turns[k].input == inputs[k])
    && (forall i :: 0 <= i < |writes| ==> WrittenAs(s.entries[i], inputs, writes[i]))
    && (forall i :: 0 <= i < |writes| ==> s.turns[writes[i].turn].phase.Settled?)
    && InCallOrder(writes)
  }

  ghost predicate WrittenAs(e: Entry, inputs: seq<AppendInput>, w: LedgerMove) {
    w.Write? && w.turn < |inputs| && Records(e, inputs[w.turn], w.id, w.now)
  }

  ghost predicate InCallOrder(writes: seq<LedgerMove>) {
    && (forall i :: 0 <= i < |writes| ==> writes[i].Write?)
    && forall i, j :: 0 <= i < j < |writes| ==> writes[i].turn < writes[j].turn
  }

  lemma PhaseKeepsAccount(s: LedgerState, k: nat, phase: Phase, inputs: seq<AppendInput>, writes: seq<LedgerMove>)
    requires Accounted(s, inputs, writes) && k < |s.turns| && (s.turns[k].phase.Settled? ==> phase.Settled?)
    ensures Accounted(WithPhase(s, k, phase), inputs, writes)
  {
  }

  lemma CallKeepsAccount(hash: Hasher, s: LedgerState, m: LedgerMove, inputs: seq<AppendInput>, writes: seq<LedgerMove>)
    requires Accounted(s, inputs, writes) && m.Call? && Possible(s, m)
    ensures Accounted(Moved(hash, s, m), inputs + [m.input], writes)
  {
    forall i | 0 <= i < |writes| ensures WrittenAs(s.entries[i], inputs + [m.input], writes[i]) {
      assert WrittenAs(s.entries[i], inputs, writes[i]);
    }
  }

  lemma WriteComesLast(s: LedgerState, k: nat, inputs: seq<AppendInput>, writes: seq<LedgerMove>)
    requires InOrder(s) && MayWrite(s, k) && Accounted(s, inputs, writes)
    ensures forall i :: 0 <= i < |writes| ==> writes[i].turn < k
  {
    forall i | 0 <= i < |writes| ensures writes[i].turn < k {
      assert WrittenAs(s.entries[i], inputs, writes[i]);
      assert s.turns[writes[i].turn].phase.Settled?;
    }
  }

  lemma StoredKeepsAccount(s: LedgerState, e: Entry, m: LedgerMove, inputs: seq<AppendInput>, writes: seq<LedgerMove>)
    requires Accounted(s, inputs, writes) && m.Write? && WrittenAs(e, inputs, m) && s.turns[m.turn].phase.Settled?
    requires forall i :: 0 <= i < |writes| ==> writes[i].turn < m.turn
    ensures Accounted(s.(entries := s.entries + [e]), inputs, writes + [m])
  {
  }

  lemma MoveKeepsAccount(hash: Hasher, s: LedgerState, m: LedgerMove, inputs: seq<AppendInput>, writes: seq<LedgerMove>)
    requires InOrder(s) && Possible(s, m) && Accounted(s, inputs, writes)
    ensures Accounted(Moved(hash, s, m), if m.Call? then inputs + [m.input] else inputs,
                      if m.Write? && m.stored then writes + [m] else writes)
  {
    match m
    case Call(_) => CallKeepsAccount(hash, s, m, inputs, writes);
    case ReadLast(k) => PhaseKeepsAccount(s, k, Holding(Last(s.entries)), inputs, writes);
    case ReadFails(k) => PhaseKeepsAccount(s, k, Settled, inputs, writes);
    case Write(k, id, now, stored) =>
      PhaseKeepsAccount(s, k, Settled, inputs, writes);
      WriteComesLast(s, k, inputs, writes);
      if stored {
        NextEntryRecords(hash, s.turns[k].phase.last, s.turns[k].input, id, now);
        StoredKeepsAccount(WithPhase(s, k, Settled), Built(hash, s, k, id, now), m, inputs, writes);
      }
  }

  lemma {:induction false} RunIsAccounted(hash: Hasher, moves: seq<LedgerMove>)
    requires LedgerRun(hash, moves).Some?
    ensures Accounted(LedgerRun(hash, moves).value, CallInputs(moves), StoredWrites(moves))
  {
    if moves != [] {
      var init := moves[..|moves| - 1];
      RunKeepsLedger(hash, init);
      RunIsAccounted(hash, init);
      MoveKeepsAccount(hash, LedgerRun(hash, init).value, moves[|moves| - 1], CallInputs(init), StoredWrites(init));
    }
  }

  /**
   * After any run the stored entries are, in the order of the calls, the inputs of exactly those calls
   * whose write the store accepted.
   */
  lemma StoredEntriesAreTheCalls(hash: Hasher, moves: seq<LedgerMove>)
    requires LedgerRun(hash, moves).Some?
    ensures
      var entries, inputs, writes := LedgerRun(hash, moves).value.entries, CallInputs(moves), StoredWrites(moves);
      && |entries| == |writes| && InCallOrder(writes)
      && forall i :: 0 <= i < |entries| ==>
           writes[i].turn < |inputs| && Records(entries[i], inputs[writes[i].turn], writes[i].id, writes[i].now)
  {
    RunIsAccounted(hash, moves);
    var s := LedgerRun(hash, moves).value;
    forall i | 0 <= i < |s.entries| ensures WrittenAs(s.entries[i], CallInputs(moves), StoredWrites(moves)[i]) {}
  }

  /** The chain never stalls: while any turn is unsettled, exactly one turn may read or write. */
  lemma ChainNeverStalls(hash: Hasher, moves: seq<LedgerMove>) returns (k: nat)
    requires LedgerRun(hash, moves).Some?
    requires exists j ::
      0 <= j < |LedgerRun(hash, moves).value.turns| && !LedgerRun(hash, moves).value.turns[j].phase.Settled?
    ensures var s := LedgerRun(hash, moves).value;
      forall j: nat :: MayRead(s, j) || MayWrite(s, j) <==> j == k
  {
    RunKeepsLedger(hash, moves);
    var s := LedgerRun(hash, moves).value;
    k := FirstUnsettled(s);
    forall j: nat ensures MayRead(s, j) || MayWrite(s, j) <==> j == k {
      if j < |s.turns| && MayRead(s, j) {
        ReleasedMeansFirst(s, j);
      }
    }
  }

  lemma FirstUnsettled(s: LedgerState) returns (k: nat)
    requires exists j :: 0 <= j < |s.turns| && !s.turns[j].phase.Settled?
    ensures k < |s.turns| && !s.turns[k].phase.Settled? && forall j :: 0 <= j < k ==> s.turns[j].phase.Settled?
  {
    k := 0;
    while s.turns[k].phase.Settled?
      invariant k < |s.turns| && forall j :: 0 <= j < k ==> s.turns[j].phase.Settled?
      decreases |s.turns| - k
    {
      k := k + 1;
    }
  }

  // --- the ledger object -------------------------------------------------------------------

  datatype StoreAnswer = Stored | Rejected

  /** A store that may reject any call; what it rejects it has not kept. */
  method AskStore() returns (answer: StoreAnswer) { answer := *; }

  class AuditLedger {
    const hash: Hasher
    var entries: seq<Entry>
    var turns: seq<Turn>
    var tail: Option<nat>
    ghost var moves: seq<LedgerMove>

    constructor (h: Digest)
      ensures hash == Hashing(h) && View() == NOTHING_YET && moves == [] && Valid()
    {
      hash := Hashing(h);
      entries, turns, tail, moves := [], [], None, [];
    }

    ghost function View(): LedgerState
      reads this
    {
      LedgerState(entries, turns, tail)
    }

    /** The fields are what the calls, reads and writes so far have made them. */
    ghost predicate Valid()
      reads this
    {
      LedgerRun(hash, moves) == Some(View())
    }

    /** Enters into the history what has just changed the fields. */
    ghost method Note(before: LedgerState, m: LedgerMove)
      requires LedgerRun(hash, moves) == Some(before) && Possible(before, m) && View() == Moved(hash, before, m)
      modifies this`moves
      ensures Valid() && moves == old(moves) + [m]
    {
      assert (moves + [m])[..|moves|] == moves;
      moves := moves + [m];
    }

    /** Refuses an empty action; otherwise chains a new turn on the tail and moves the tail to it. */
    method Append(input: AppendInput) returns (accepted: bool)
      requires Valid()
      modifies this`turns, this`tail, this`moves
      ensures Valid() && accepted == (input.action != [])
      ensures accepted ==>
        moves == old(moves) + [Call(input)] && turns == old(turns) + [Turn(input, old(tail), Waiting)]
      ensures accepted ==> tail == Some(|old(turns)|)
      ensures !accepted ==> View() == old(View()) && moves == old(moves)
    {
      if input.action == [] {
        return false;
      }
      ghost var before := View();
      turns := turns + [Turn(input, tail, Waiting)];
      tail := Some(|turns| - 1);
      Note(before, Call(input));
      return true;
    }

    /** Runs once the promise the turn was chained on has settled: reads the last entry, or is rejected and settles. */
    method BeginTurn(k: nat)
      requires Valid() && k < |turns| && turns[k].phase.Waiting? && Released(View(), turns[k].behind)
      modifies this`turns, this`moves
      ensures Valid() && (moves == old(moves) + [ReadLast(k)] || moves == old(moves) + [ReadFails(k)])
      ensures turns == old(turns)[k := old(turns[k]).(phase := turns[k].phase)]
      ensures turns[k].phase == if moves == old(moves) + [ReadLast(k)] then Holding(Last(entries)) else Settled
    {
      ghost var before := View();
      var answer := AskStore();
      if answer.Stored? {
        turns := turns[k := turns[k].(phase := Holding(Last(entries)))];
        Note(before, ReadLast(k));
      } else {
        turns := turns[k := turns[k].(phase := Settled)];
        Note(before, ReadFails(k));
      }
    }

    /**
     * Writes an entry that records the input of the turn, right behind the last entry, and settles even
     * if the write is rejected.
     */
    method EndTurn(k: nat, id: Text, now: int) returns (entry: Option<Entry>)
      requires Valid() && k < |turns| && turns[k].phase.Holding?
      modifies this`entries, this`turns, this`moves
      ensures Valid() && moves == old(moves) + [Write(k, id, now, entry.Some?)]
      ensures turns == old(turns)[k := old(turns[k]).(phase := Settled)]
      ensures entry.Some? ==>
        entries == old(entries) + [entry.value] && Records(entry.value, old(turns[k].input), id, now)
      ensures entry.Some? ==> entry.value.content.sequence == |entries| && entry.value.hash == hash(entry.value.content)
      ensures entry.Some? ==> entry.value.content.previousHash == HashBefore(old(entries), |old(entries)|)
      ensures entry.None? ==> entries == old(entries)
    {
      ghost var before := View();
      RunKeepsLedger(hash, moves);
      var built := NextEntry(hash, turns[k].phase.last, turns[k].input, id, now);
      NextEntryRecords(hash, turns[k].phase.last, turns[k].input, id, now);
      var answer := AskStore();
      if answer.Stored? {
        entries := entries + [built];
        entry := Some(built);
      } else {
        entry := None;
      }
      turns := turns[k := turns[k].(phase := Settled)];
      Note(before, Write(k, id, now, answer.Stored?));
    }

    method Check() returns (valid: bool, entryCount: nat, brokenAt: seq<int>)
      requires Valid()
      ensures valid && entryCount == |entries| && brokenAt == []
    {
      RunKeepsLedger(hash, moves);
      valid, entryCount, brokenAt := Verify(hash, entries);
      NoneBroken(hash, entries, |entries|);
    }
  }
}
