/** packages/context/src/naive-assembler.ts: what goes into a model's context, and an account of what does not. */
module ContextAssembler {
  import opened Wrappers

  datatype Role = System | User | Assistant | Tool

  datatype Message = Message(role: Role, content: string)

  /** One turn of a conversation; the same message object may be listed twice. */
  datatype Turn = Turn(handle: nat, message: Message)

  datatype Memory = Memory(id: string, content: string, score: Option<real>)

  datatype Budget = Budget(maxTokens: Option<int>, maxHistoryTurns: Option<int>, maxMemories: Option<int>)

  /** `input` is the rendered input, empty when there is none. */
  datatype Request = Request(instruction: string, input: string, history: seq<Turn>, memories: seq<Memory>,
                             budget: Budget)

  datatype Reason = TokenBudget | TurnLimit | MemoryLimit

  datatype Drop = DroppedTurn(index: int, reason: Reason) | DroppedMemory(id: string, reason: Reason)

  datatype Context = Context(
    messages: seq<Message>, tokenEstimate: nat, historyTurns: nat, dropped: seq<Drop>, memoryRefs: seq<string>)

  const DEFAULT_MAX_TOKENS := 8000

  function EstimateTokens(text: string): nat { (|text| + 3) / 4 }

  function MessageTokens(m: Message): nat { EstimateTokens(m.content) + 4 }

  function MemoryTokens(m: Memory): nat { EstimateTokens(m.content) + 8 }

  /** Four characters to a token, rounded up; a flat four tokens more for a message, eight for a memory. */
  lemma CostsAre(text: string, role: Role, id: string, score: Option<real>)
    ensures |text| <= 4 * EstimateTokens(text) < |text| + 4
    ensures |text| + 16 <= 4 * MessageTokens(Message(role, text)) < |text| + 20
    ensures |text| + 32 <= 4 * MemoryTokens(Memory(id, text, score)) < |text| + 36
  {
  }

  // --- greedy selection --------------------------------------------------------------------

  /** What has been used once the items have been offered in order, each taken if it still fits. */
  function Used(start: nat, max: int, costs: seq<nat>): nat {
    if costs == [] then start
    else
      var used, cost := Used(start, max, costs[..|costs| - 1]), costs[|costs| - 1];
      if used + cost > max then used else used + cost
  }

  function Taken(start: nat, max: int, costs: seq<nat>): (taken: seq<bool>)
    ensures |taken| == |costs|
  {
    if costs == [] then []
    else
      var init, cost := costs[..|costs| - 1], costs[|costs| - 1];
      Taken(start, max, init) + [Used(start, max, init) + cost <= max]
  }

  ghost function Sum(costs: seq<nat>, choice: seq<bool>): nat
    requires |choice| == |costs|
  {
    if costs == [] then 0
    else Sum(costs[..|costs| - 1], choice[..|costs| - 1]) + if choice[|costs| - 1] then costs[|costs| - 1] else 0
  }

  lemma {:induction false} UsedIsSum(start: nat, max: int, costs: seq<nat>)
    ensures Used(start, max, costs) == start + Sum(costs, Taken(start, max, costs))
  {
    if costs != [] {
      var init := costs[..|costs| - 1];
      UsedIsSum(start, max, init);
      assert Taken(start, max, costs)[..|costs| - 1] == Taken(start, max, init);
    }
  }

  /** An item is taken exactly when it fits beside all that were taken before it. */
  lemma {:induction false} TakenExactly(start: nat, max: int, costs: seq<nat>, i: nat)
    requires i < |costs|
    ensures Taken(start, max, costs)[..i] == Taken(start, max, costs[..i])
    ensures Taken(start, max, costs)[i] <==> start + Sum(costs[..i], Taken(start, max, costs)[..i]) + costs[i] <= max
    decreases |costs|
  {
    var init := costs[..|costs| - 1];
    if i < |costs| - 1 {
      TakenExactly(start, max, init, i);
      assert init[..i] == costs[..i];
      assert Taken(start, max, costs)[..i] == Taken(start, max, init)[..i];
    } else {
      UsedIsSum(start, max, init);
      assert Taken(start, max, costs)[..i] == Taken(start, max, init);
    }
  }

  /** The ceiling holds unless the fixed part already breaks it, and what was left out would still not fit. */
  lemma {:induction false} NothingLeftOutFits(start: nat, max: int, costs: seq<nat>)
    ensures start <= Used(start, max, costs) && (Used(start, max, costs) <= max || Used(start, max, costs) == start)
    ensures forall i :: 0 <= i < |costs| && !Taken(start, max, costs)[i] ==> Used(start, max, costs) + costs[i] > max
  {
    if costs != [] {
      NothingLeftOutFits(start, max, costs[..|costs| - 1]);
    }
  }

  lemma {:induction false} SumOfPrefix(costs: seq<nat>, choice: seq<bool>, n: nat)
    requires |choice| == |costs| && n <= |costs|
    ensures Sum(costs[..n], choice[..n]) <= Sum(costs, choice)
    decreases |costs|
  {
    if n < |costs| {
      var last := |costs| - 1;
      SumOfPrefix(costs[..last], choice[..last], n);
      assert costs[..last][..n] == costs[..n] && choice[..last][..n] == choice[..n];
    } else {
      assert costs[..n] == costs && choice[..n] == choice;
    }
  }

  /** Any other choice within the ceiling first differs by leaving out something greedy selection takes. */
  lemma PriorityIsRespected(start: nat, max: int, costs: seq<nat>, other: seq<bool>, i: nat)
    requires |other| == |costs| && start + Sum(costs, other) <= max
    requires i < |costs| && other[..i] == Taken(start, max, costs)[..i] && other[i] != Taken(start, max, costs)[i]
    ensures Taken(start, max, costs)[i] && !other[i]
  {
    TakenExactly(start, max, costs, i);
    SumOfPrefix(costs, other, i + 1);
    assert costs[..i + 1][..i] == costs[..i] && other[..i + 1][..i] == other[..i];
  }

  /** The items chosen, in the order offered; `want` false gives those not chosen. */
  function Chosen<T>(items: seq<T>, choice: seq<bool>, want: bool): seq<T>
    requires |choice| == |items|
  {
    if items == [] then []
    else
      var last := |items| - 1;
      Chosen(items[..last], choice[..last], want) + if choice[last] == want then [items[last]] else []
  }

  lemma {:induction false} ChosenPartition<T>(items: seq<T>, choice: seq<bool>)
    requires |choice| == |items|
    ensures multiset(Chosen(items, choice, true)) + multiset(Chosen(items, choice, false)) == multiset(items)
  {
    if items != [] {
      var last := |items| - 1;
      ChosenPartition(items[..last], choice[..last]);
      assert items == items[..last] + [items[last]];
    }
  }

  // --- count limits ------------------------------------------------------------------------

  /** How many items stay: a negative limit counts from the end. */
  function Cut(n: nat, limit: Option<int>): (cut: nat)
    ensures cut <= n
  {
    if limit.None? || n <= limit.value then n
    else if limit.value >= 0 then limit.value
    else if n + limit.value > 0 then n + limit.value else 0
  }

  /** The notes on removed items, numbered on from `from`. */
  function Notes<T>(removed: seq<T>, from: int, describe: (T, int) -> Drop): seq<Drop> {
    if removed == [] then []
    else
      var last := |removed| - 1;
      Notes(removed[..last], from, describe) + [describe(removed[last], from + last)]
  }

  lemma {:induction false} NotesAt<T>(removed: seq<T>, from: int, describe: (T, int) -> Drop, i: nat)
    requires i < |removed|
    ensures |Notes(removed, from, describe)| == |removed|
    ensures Notes(removed, from, describe)[i] == describe(removed[i], from + i)
  {
    var last := |removed| - 1;
    if i < last {
      NotesAt(removed[..last], from, describe, i);
    } else if last > 0 {
      NotesAt(removed[..last], from, describe, 0);
    }
  }

  /** What a limit leaves of a list, and the note on each item it takes away. */
  ghost predicate Limited<T(!new)>(items: seq<T>, limit: Option<int>, describe: (T, int) -> Drop, kept: seq<T>,
                                   notes: seq<Drop>) {
    && kept <= items && |notes| == |items| - |kept|
    && (limit.None? ==> kept == items)
    && (limit.Some? && limit.value >= |items| ==> kept == items)
    && (limit.Some? && 0 <= limit.value < |items| ==> |kept| == limit.value)
    && (limit.Some? && -|items| <= limit.value < 0 ==> |kept| == |items| + limit.value)
    && (limit.Some? && limit.value < -|items| ==> kept == [])
    && (forall i :: 0 <= i < |notes| ==>
          limit.Some? && notes[i] == describe(items[|kept| + i], limit.value + i))
  }

  lemma CutLimits<T(!new)>(items: seq<T>, limit: Option<int>, describe: (T, int) -> Drop)
    ensures var cut := Cut(|items|, limit);
      Limited(items, limit, describe, items[..cut], Notes(items[cut..], limit.GetOr(0), describe))
  {
    var cut := Cut(|items|, limit);
    var kept, removed := items[..cut], items[cut..];
    var notes := Notes(removed, limit.GetOr(0), describe);
    NotesCount(removed, limit.GetOr(0), describe);
    CutExactly(|items|, limit);
    forall i | 0 <= i < |notes| ensures limit.Some? && notes[i] == describe(items[|kept| + i], limit.value + i) {
      NotesAt(removed, limit.GetOr(0), describe, i);
      assert removed[i] == items[cut + i];
    }
  }

  lemma CutExactly(n: nat, limit: Option<int>)
    ensures limit.None? ==> Cut(n, limit) == n
    ensures limit.Some? && limit.value >= n ==> Cut(n, limit) == n
    ensures limit.Some? && 0 <= limit.value < n ==> Cut(n, limit) == limit.value
    ensures limit.Some? && 0 - n <= limit.value < 0 ==> Cut(n, limit) == n + limit.value
    ensures limit.Some? && limit.value < 0 - n ==> Cut(n, limit) == 0
  {
  }

  /** Keeps the first items and notes the others behind what is already noted. */
  method ApplyCountLimit<T(!new)>(items: seq<T>, limit: Option<int>, describe: (T, int) -> Drop, dropped: seq<Drop>)
    returns (kept: seq<T>, noted: seq<Drop>)
    ensures kept == items[..Cut(|items|, limit)]
    ensures noted == dropped + Notes(items[Cut(|items|, limit)..], limit.GetOr(0), describe)
    ensures dropped <= noted && Limited(items, limit, describe, kept, noted[|dropped|..])
  {
    CutLimits(items, limit, describe);
    noted := dropped;
    if limit.None? || |items| <= limit.value {
      return items, noted;
    }
    var cut := Cut(|items|, limit);
    kept := items[..cut];
    var removed := items[cut..];
    for offset := 0 to |removed|
      invariant noted == dropped + Notes(removed[..offset], limit.value, describe)
    {
      noted := noted + [describe(removed[offset], limit.value + offset)];
      assert removed[..offset + 1][..offset] == removed[..offset];
    }
    assert removed[..|removed|] == removed;
  }

  // --- ranking memories --------------------------------------------------------------------

  function Score(m: Memory): real { m.score.GetOr(0.0) }

  function Insert(m: Memory, ranked: seq<Memory>): seq<Memory> {
    if ranked == [] || Score(ranked[0]) <= Score(m) then [m] + ranked else [ranked[0]] + Insert(m, ranked[1..])
  }

  /** Highest score first; equal scores stay in the order given. */
  function Ranked(memories: seq<Memory>): seq<Memory> {
    if memories == [] then [] else Insert(memories[0], Ranked(memories[1..]))
  }

  ghost predicate Descending(memories: seq<Memory>) {
    forall i, j :: 0 <= i < j < |memories| ==> Score(memories[i]) >= Score(memories[j])
  }

  ghost function WithScore(memories: seq<Memory>, score: real): seq<Memory> {
    if memories == [] then []
    else (if Score(memories[0]) == score then [memories[0]] else []) + WithScore(memories[1..], score)
  }

  /** Ranked memories come with falling scores, one without a score counting as zero. */
  lemma HigherScoresFirst(memories: seq<Memory>, i: nat, j: nat)
    requires i < j < |Ranked(memories)|
    ensures var a, b := Ranked(memories)[i].score, Ranked(memories)[j].score;
      && (a.Some? && b.Some? ==> a.value >= b.value)
      && (a.Some? && b.None? ==> a.value >= 0.0) && (a.None? && b.Some? ==> 0.0 >= b.value)
  {
    RankedIsSorted(memories);
  }

  lemma DescendingOnTop(m: Memory, rest: seq<Memory>)
    requires Descending(rest) && (rest != [] ==> Score(m) >= Score(rest[0]))
    ensures Descending([m] + rest)
  {
  }

  lemma {:induction false} InsertRanks(m: Memory, ranked: seq<Memory>)
    requires Descending(ranked)
    ensures Descending(Insert(m, ranked)) && Insert(m, ranked) != []
    ensures ranked != [] && Score(ranked[0]) > Score(m) ==> Insert(m, ranked)[0] == ranked[0]
    ensures Insert(m, ranked)[0] == m || (ranked != [] && Insert(m, ranked)[0] == ranked[0])
  {
    if ranked == [] || Score(ranked[0]) <= Score(m) {
      DescendingOnTop(m, ranked);
    } else {
      InsertRanks(m, ranked[1..]);
      DescendingOnTop(ranked[0], Insert(m, ranked[1..]));
    }
  }

  lemma {:induction false} InsertAdds(m: Memory, ranked: seq<Memory>)
    ensures multiset(Insert(m, ranked)) == multiset(ranked) + multiset{m}
  {
    if ranked != [] {
      InsertAdds(m, ranked[1..]);
      assert ranked == [ranked[0]] + ranked[1..];
    }
  }

  lemma {:induction false} InsertIsStable(m: Memory, ranked: seq<Memory>, score: real)
    ensures WithScore(Insert(m, ranked), score) == (if Score(m) == score then [m] else []) + WithScore(ranked, score)
  {
    if ranked == [] || Score(ranked[0]) <= Score(m) {
      assert ([m] + ranked)[1..] == ranked;
    } else {
      InsertIsStable(m, ranked[1..], score);
      assert ([ranked[0]] + Insert(m, ranked[1..]))[1..] == Insert(m, ranked[1..]);
    }
  }

  /** Ranking loses nothing and puts higher scores first. */
  lemma {:induction false} RankedIsSorted(memories: seq<Memory>)
    ensures Descending(Ranked(memories)) && multiset(Ranked(memories)) == multiset(memories)
  {
    if memories != [] {
      RankedIsSorted(memories[1..]);
      RankedInsert(memories);
    }
  }

  lemma RankedInsert(memories: seq<Memory>)
    requires memories != []
    requires Descending(Ranked(memories[1..])) && multiset(Ranked(memories[1..])) == multiset(memories[1..])
    ensures Descending(Ranked(memories)) && multiset(Ranked(memories)) == multiset(memories)
  {
    InsertRanks(memories[0], Ranked(memories[1..]));
    InsertAdds(memories[0], Ranked(memories[1..]));
    FirstCounts(memories);
  }

  lemma FirstCounts<T>(s: seq<T>)
    requires s != []
    ensures multiset(s) == multiset(s[1..]) + multiset{s[0]}
  {
    assert s == [s[0]] + s[1..];
  }

  /** Ranking keeps memories of equal score in the order given. */
  lemma {:induction false} RankedIsStable(memories: seq<Memory>, score: real)
    ensures WithScore(Ranked(memories), score) == WithScore(memories, score)
  {
    if memories != [] {
      RankedIsStable(memories[1..], score);
      InsertIsStable(memories[0], Ranked(memories[1..]), score);
    }
  }

  // --- the whole selection -----------------------------------------------------------------

  function Merged(standard: Budget, asked: Budget): Budget {
    Budget(
      if asked.maxTokens.Some? then asked.maxTokens else standard.maxTokens,
      if asked.maxHistoryTurns.Some? then asked.maxHistoryTurns else standard.maxHistoryTurns,
      if asked.maxMemories.Some? then asked.maxMemories else standard.maxMemories)
  }

  /** Field by field the request's budget wins over the assembler's, and 8000 tokens over none at all. */
  lemma MergedExactly(standard: Budget, asked: Budget)
    ensures var b := Merged(standard, asked);
      && (asked.maxTokens.Some? ==> MaxTokens(b) == asked.maxTokens.value)
      && (asked.maxTokens.None? && standard.maxTokens.Some? ==> MaxTokens(b) == standard.maxTokens.value)
      && (asked.maxTokens.None? && standard.maxTokens.None? ==> MaxTokens(b) == 8000)
      && (asked.maxHistoryTurns.Some? ==> b.maxHistoryTurns == asked.maxHistoryTurns)
      && (asked.maxHistoryTurns.None? ==> b.maxHistoryTurns == standard.maxHistoryTurns)
      && (asked.maxMemories.Some? ==> b.maxMemories == asked.maxMemories)
      && (asked.maxMemories.None? ==> b.maxMemories == standard.maxMemories)
  {
  }

  /** The instruction always counts, and so does the input when there is one. */
  lemma FixedCostIs(r: Request)
    ensures r.input == "" ==> FixedCost(r) == MessageTokens(Message(System, r.instruction))
    ensures r.input != "" ==>
      FixedCost(r) == MessageTokens(Message(System, r.instruction)) + MessageTokens(Message(User, r.input))
  {
  }

  function FixedCost(r: Request): nat {
    MessageTokens(Message(System, r.instruction)) + if r.input != "" then MessageTokens(Message(User, r.input)) else 0
  }

  function MaxTokens(b: Budget): int { b.maxTokens.GetOr(DEFAULT_MAX_TOKENS) }

  /** The positions of `n` turns, newest first. */
  ghost function NewestFirst(n: nat): (order: seq<int>)
    ensures |order| == n && forall j :: 0 <= j < n ==> order[j] == n - 1 - j
  {
    seq(n, j => n - 1 - j)
  }

  function Reversed<T>(s: seq<T>): (r: seq<T>)
    ensures |r| == |s| && forall i :: 0 <= i < |s| ==> r[i] == s[|s| - 1 - i]
  {
    seq(|s|, i requires 0 <= i < |s| => s[|s| - 1 - i])
  }

  function TurnCosts(turns: seq<Turn>): (costs: seq<nat>)
    ensures |costs| == |turns| && forall i :: 0 <= i < |turns| ==> costs[i] == MessageTokens(turns[i].message)
  {
    seq(|turns|, i requires 0 <= i < |turns| => MessageTokens(turns[i].message))
  }

  function MemoryCosts(memories: seq<Memory>): (costs: seq<nat>)
    ensures |costs| == |memories| && forall i :: 0 <= i < |memories| ==> costs[i] == MemoryTokens(memories[i])
  {
    seq(|memories|, i requires 0 <= i < |memories| => MemoryTokens(memories[i]))
  }

  ghost function NewestTurns(r: Request): seq<Turn> { Reversed(r.history) }

  ghost function TurnCut(r: Request, b: Budget): nat { Cut(|r.history|, b.maxHistoryTurns) }

  ghost function ConsideredTurns(r: Request, b: Budget): seq<Turn> { NewestTurns(r)[..TurnCut(r, b)] }

  ghost function TurnsTaken(r: Request, b: Budget): seq<bool> {
    Taken(FixedCost(r), MaxTokens(b), TurnCosts(ConsideredTurns(r, b)))
  }

  ghost function AfterTurns(r: Request, b: Budget): nat {
    Used(FixedCost(r), MaxTokens(b), TurnCosts(ConsideredTurns(r, b)))
  }

  ghost function MemoryCut(r: Request, b: Budget): (cut: nat)
    ensures cut <= |Ranked(r.memories)|
  {
    Cut(|Ranked(r.memories)|, b.maxMemories)
  }

  ghost function ConsideredMemories(r: Request, b: Budget): seq<Memory> { Ranked(r.memories)[..MemoryCut(r, b)] }

  ghost function MemoriesTaken(r: Request, b: Budget): seq<bool> {
    Taken(AfterTurns(r, b), MaxTokens(b), MemoryCosts(ConsideredMemories(r, b)))
  }

  ghost function Estimate(r: Request, b: Budget): nat {
    Used(AfterTurns(r, b), MaxTokens(b), MemoryCosts(ConsideredMemories(r, b)))
  }

  ghost function KeptTurns(r: Request, b: Budget): seq<Turn> {
    Reversed(Chosen(ConsideredTurns(r, b), TurnsTaken(r, b), true))
  }

  ghost function KeptMemories(r: Request, b: Budget): seq<Memory> {
    Chosen(ConsideredMemories(r, b), MemoriesTaken(r, b), true)
  }

  ghost function LostMemories(r: Request, b: Budget): seq<Memory> {
    Ranked(r.memories)[MemoryCut(r, b)..] + Chosen(ConsideredMemories(r, b), MemoriesTaken(r, b), false)
  }

  // --- turns: every position is kept or lost -----------------------------------------------

  ghost function KeptPositions(r: Request, b: Budget): seq<int> {
    Reversed(Chosen(NewestFirst(|r.history|)[..TurnCut(r, b)], TurnsTaken(r, b), true))
  }

  ghost function LostPositions(r: Request, b: Budget): seq<int> {
    NewestFirst(|r.history|)[TurnCut(r, b)..]
      + Chosen(NewestFirst(|r.history|)[..TurnCut(r, b)], TurnsTaken(r, b), false)
  }

  ghost predicate Falling(s: seq<int>) {
    forall i, j :: 0 <= i < j < |s| ==> s[i] > s[j]
  }

  lemma {:induction false} ChosenFalls(s: seq<int>, choice: seq<bool>, want: bool)
    requires |choice| == |s| && Falling(s)
    ensures Falling(Chosen(s, choice, want)) && forall x :: x in Chosen(s, choice, want) ==> x in s
  {
    if s != [] {
      var last := |s| - 1;
      var init, chosen := s[..last], Chosen(s[..last], choice[..last], want);
      ChosenFalls(init, choice[..last], want);
      forall x | x in chosen ensures x > s[last] {
        assert x in init;
        var k :| 0 <= k < |init| && init[k] == x;
        assert s[k] == x;
      }
      FallingExtends(chosen, s[last]);
      assert s == init + [s[last]];
    }
  }

  lemma FallingExtends(s: seq<int>, x: int)
    requires Falling(s) && forall y :: y in s ==> y > x
    ensures Falling(s + [x])
  {
    forall i | 0 <= i < |s| ensures s[i] > x {
      assert s[i] in s;
    }
  }

  /** What is chosen from a list of lookups is the lookup of what is chosen. */
  lemma {:induction false} ChosenLooksUp(history: seq<Turn>, turns: seq<Turn>, order: seq<int>, choice: seq<bool>,
                                         want: bool)
    requires |choice| == |turns| == |order|
    requires forall i :: 0 <= i < |order| ==> 0 <= order[i] < |history| && turns[i] == history[order[i]]
    ensures var ts, at := Chosen(turns, choice, want), Chosen(order, choice, want);
      |ts| == |at| && forall k :: 0 <= k < |at| ==> 0 <= at[k] < |history| && ts[k] == history[at[k]]
  {
    if turns != [] {
      var last := |turns| - 1;
      ChosenLooksUp(history, turns[..last], order[..last], choice[..last], want);
    }
  }

  /** Kept turns are those at the kept positions, in their original order. */
  lemma KeptTurnsStayInOrder(r: Request, b: Budget)
    ensures var kept, at := KeptTurns(r, b), KeptPositions(r, b);
      && |kept| == |at| && (forall k :: 0 <= k < |at| ==> 0 <= at[k] < |r.history| && kept[k] == r.history[at[k]])
      && forall i, j :: 0 <= i < j < |at| ==> at[i] < at[j]
  {
    var order := NewestFirst(|r.history|)[..TurnCut(r, b)];
    ChosenLooksUp(r.history, ConsideredTurns(r, b), order, TurnsTaken(r, b), true);
    ChosenFalls(order, TurnsTaken(r, b), true);
  }

  lemma {:induction false} ReversedSame<T>(s: seq<T>)
    ensures multiset(Reversed(s)) == multiset(s)
  {
    if s != [] {
      ReversedSame(s[1..]);
      assert Reversed(s) == Reversed(s[1..]) + [s[0]];
      assert s == [s[0]] + s[1..];
    }
  }

  lemma {:induction false} EachPositionOnce(n: nat, i: int)
    ensures multiset(NewestFirst(n))[i] == if 0 <= i < n then 1 else 0
  {
    if n > 0 {
      EachPositionOnce(n - 1, i);
      assert NewestFirst(n) == [n - 1] + NewestFirst(n - 1);
    }
  }

  /** Every turn of the history is either kept or lost, and only once. */
  lemma TurnsAreAccounted(r: Request, b: Budget, i: int)
    ensures multiset(KeptPositions(r, b))[i] + multiset(LostPositions(r, b))[i] == if 0 <= i < |r.history| then 1 else 0
  {
    var all, cut := NewestFirst(|r.history|), TurnCut(r, b);
    SplitAndChoose(all, cut, TurnsTaken(r, b));
    ReversedSame(Chosen(all[..cut], TurnsTaken(r, b), true));
    EachPositionOnce(|r.history|, i);
  }

  /** Every memory is either kept or lost, as often as it was given. */
  lemma MemoriesAreAccounted(r: Request, b: Budget)
    ensures multiset(KeptMemories(r, b)) + multiset(LostMemories(r, b)) == multiset(r.memories)
    ensures Descending(KeptMemories(r, b))
  {
    RankedIsSorted(r.memories);
    SplitAndChoose(Ranked(r.memories), MemoryCut(r, b), MemoriesTaken(r, b));
    ChosenDescends(ConsideredMemories(r, b), MemoriesTaken(r, b));
  }

  lemma SplitAndChoose<T>(items: seq<T>, cut: nat, choice: seq<bool>)
    requires cut <= |items| && |choice| == cut
    ensures multiset(Chosen(items[..cut], choice, true))
      + multiset(items[cut..] + Chosen(items[..cut], choice, false)) == multiset(items)
  {
    ChosenPartition(items[..cut], choice);
    assert items == items[..cut] + items[cut..];
  }

  lemma {:induction false} ChosenDescends(memories: seq<Memory>, choice: seq<bool>)
    requires |choice| == |memories| && Descending(memories)
    ensures Descending(Chosen(memories, choice, true))
      && forall m :: m in Chosen(memories, choice, true) ==> m in memories
  {
    if memories != [] {
      var last := |memories| - 1;
      var chosen := Chosen(memories[..last], choice[..last], true);
      ChosenDescends(memories[..last], choice[..last]);
      forall i | 0 <= i < |chosen| ensures Score(chosen[i]) >= Score(memories[last]) {
        assert chosen[i] in memories[..last];
      }
    }
  }

  // --- tokens ------------------------------------------------------------------------------

  ghost function TurnTotal(turns: seq<Turn>): nat {
    if turns == [] then 0 else TurnTotal(turns[..|turns| - 1]) + MessageTokens(turns[|turns| - 1].message)
  }

  ghost function MemoryTotal(memories: seq<Memory>): nat {
    if memories == [] then 0 else MemoryTotal(memories[..|memories| - 1]) + MemoryTokens(memories[|memories| - 1])
  }

  lemma {:induction false} ChosenTurnsCost(turns: seq<Turn>, choice: seq<bool>)
    requires |choice| == |turns|
    ensures TurnTotal(Chosen(turns, choice, true)) == Sum(TurnCosts(turns), choice)
  {
    if turns != [] {
      var last := |turns| - 1;
      ChosenTurnsCost(turns[..last], choice[..last]);
      assert TurnCosts(turns)[..last] == TurnCosts(turns[..last]);
      var chosen := Chosen(turns[..last], choice[..last], true);
      assert (chosen + [turns[last]])[..|chosen|] == chosen;
      assert chosen + [] == chosen;
    }
  }

  lemma {:induction false} ChosenMemoriesCost(memories: seq<Memory>, choice: seq<bool>)
    requires |choice| == |memories|
    ensures MemoryTotal(Chosen(memories, choice, true)) == Sum(MemoryCosts(memories), choice)
  {
    if memories != [] {
      var last := |memories| - 1;
      ChosenMemoriesCost(memories[..last], choice[..last]);
      assert MemoryCosts(memories)[..last] == MemoryCosts(memories[..last]);
      var chosen := Chosen(memories[..last], choice[..last], true);
      assert (chosen + [memories[last]])[..|chosen|] == chosen;
      assert chosen + [] == chosen;
    }
  }

  lemma {:induction false} TotalOnTop(t: Turn, turns: seq<Turn>)
    ensures TurnTotal([t] + turns) == MessageTokens(t.message) + TurnTotal(turns)
  {
    if turns == [] {
      assert [t][..0] == [];
      assert [t] + turns == [t];
    } else {
      var last := |turns| - 1;
      TotalOnTop(t, turns[..last]);
      assert ([t] + turns)[..|turns|] == [t] + turns[..last];
    }
  }

  lemma {:induction false} ReversedTotal(turns: seq<Turn>)
    ensures TurnTotal(Reversed(turns)) == TurnTotal(turns)
  {
    if turns != [] {
      var last := |turns| - 1;
      ReversedTotal(turns[..last]);
      assert Reversed(turns) == [turns[last]] + Reversed(turns[..last]);
      TotalOnTop(turns[last], Reversed(turns[..last]));
    }
  }

  /** The estimate is the fixed part and everything kept, and respects the ceiling if the fixed part does. */
  lemma EstimateIsExact(r: Request, b: Budget)
    ensures Estimate(r, b) == FixedCost(r) + TurnTotal(KeptTurns(r, b)) + MemoryTotal(KeptMemories(r, b))
    ensures Estimate(r, b) <= if MaxTokens(b) > FixedCost(r) then MaxTokens(b) else FixedCost(r)
  {
    var turns, memories := ConsideredTurns(r, b), ConsideredMemories(r, b);
    UsedIsSum(FixedCost(r), MaxTokens(b), TurnCosts(turns));
    UsedIsSum(AfterTurns(r, b), MaxTokens(b), MemoryCosts(memories));
    ChosenTurnsCost(turns, TurnsTaken(r, b));
    ReversedTotal(Chosen(turns, TurnsTaken(r, b), true));
    ChosenMemoriesCost(memories, MemoriesTaken(r, b));
    NothingLeftOutFits(FixedCost(r), MaxTokens(b), TurnCosts(turns));
    NothingLeftOutFits(AfterTurns(r, b), MaxTokens(b), MemoryCosts(memories));
  }

  lemma {:induction false} ChosenIsSome<T>(items: seq<T>, choice: seq<bool>, want: bool, x: T)
    requires |choice| == |items| && x in Chosen(items, choice, want)
    ensures exists i :: 0 <= i < |items| && items[i] == x && choice[i] == want
  {
    var last := |items| - 1;
    if choice[last] == want && x == items[last] {
    } else {
      ChosenIsSome(items[..last], choice[..last], want, x);
      var i :| 0 <= i < |items[..last]| && items[..last][i] == x && choice[..last][i] == want;
      assert items[i] == x && choice[i] == want;
    }
  }

  /** Nothing that was left out for want of tokens would still fit into the finished context. */
  lemma NothingDroppedWouldFit(r: Request, b: Budget)
    ensures forall t :: t in Chosen(ConsideredTurns(r, b), TurnsTaken(r, b), false) ==>
      Estimate(r, b) + MessageTokens(t.message) > MaxTokens(b)
    ensures forall m :: m in Chosen(ConsideredMemories(r, b), MemoriesTaken(r, b), false) ==>
      Estimate(r, b) + MemoryTokens(m) > MaxTokens(b)
  {
    var turns, memories := ConsideredTurns(r, b), ConsideredMemories(r, b);
    NothingLeftOutFits(FixedCost(r), MaxTokens(b), TurnCosts(turns));
    NothingLeftOutFits(AfterTurns(r, b), MaxTokens(b), MemoryCosts(memories));
    forall t | t in Chosen(turns, TurnsTaken(r, b), false)
      ensures Estimate(r, b) + MessageTokens(t.message) > MaxTokens(b)
    {
      ChosenIsSome(turns, TurnsTaken(r, b), false, t);
    }
    forall m | m in Chosen(memories, MemoriesTaken(r, b), false)
      ensures Estimate(r, b) + MemoryTokens(m) > MaxTokens(b)
    {
      ChosenIsSome(memories, MemoriesTaken(r, b), false, m);
    }
  }

  // --- the report --------------------------------------------------------------------------

  /** The first position holding the same object, as `indexOf` finds it. */
  function IndexOf(history: seq<Turn>, handle: nat): int {
    if history == [] then -1
    else if history[0].handle == handle then 0
    else
      var rest := IndexOf(history[1..], handle);
      if rest == -1 then -1 else rest + 1
  }

  lemma {:induction false} IndexOfIsFirst(history: seq<Turn>, at: nat)
    requires at < |history|
    ensures var first := IndexOf(history, history[at].handle);
      && 0 <= first <= at && history[first].handle == history[at].handle
      && forall i :: 0 <= i < first ==> history[i].handle != history[at].handle
  {
    if history[0].handle != history[at].handle {
      IndexOfIsFirst(history[1..], at - 1);
    }
  }

  function OverTurnLimit(n: nat): (Turn, int) -> Drop {
    (t: Turn, j: int) => DroppedTurn(n - 1 - j, TurnLimit)
  }

  function OverMemoryLimit(): (Memory, int) -> Drop {
    (m: Memory, j: int) => DroppedMemory(m.id, MemoryLimit)
  }

  function OverTokens(history: seq<Turn>, turns: seq<Turn>): seq<Drop> {
    if turns == [] then []
    else
      OverTokens(history, turns[..|turns| - 1])
        + [DroppedTurn(IndexOf(history, turns[|turns| - 1].handle), TokenBudget)]
  }

  function MemoriesOverTokens(memories: seq<Memory>): seq<Drop> {
    if memories == [] then []
    else MemoriesOverTokens(memories[..|memories| - 1]) + [DroppedMemory(memories[|memories| - 1].id, TokenBudget)]
  }

  ghost function TurnReport(r: Request, b: Budget): seq<Drop> {
    Notes(NewestTurns(r)[TurnCut(r, b)..], b.maxHistoryTurns.GetOr(0), OverTurnLimit(|r.history|))
    + OverTokens(r.history, Chosen(ConsideredTurns(r, b), TurnsTaken(r, b), false))
  }

  ghost function MemoryLimitReport(r: Request, b: Budget): seq<Drop> {
    Notes(Ranked(r.memories)[MemoryCut(r, b)..], b.maxMemories.GetOr(0), OverMemoryLimit())
  }

  ghost function MemoryTokenReport(r: Request, b: Budget): seq<Drop> {
    MemoriesOverTokens(Chosen(ConsideredMemories(r, b), MemoriesTaken(r, b), false))
  }

  /** A report on turns names these positions, in this order. */
  ghost predicate Names(report: seq<Drop>, positions: seq<int>) {
    |report| == |positions|
      && forall i :: 0 <= i < |report| ==> report[i].DroppedTurn? && report[i].index == positions[i]
  }

  ghost predicate NamesMemories(report: seq<Drop>, memories: seq<Memory>) {
    |report| == |memories|
      && forall i :: 0 <= i < |report| ==> report[i].DroppedMemory? && report[i].id == memories[i].id
  }

  lemma {:induction false} NotesNameMemories(memories: seq<Memory>, from: int)
    ensures NamesMemories(Notes(memories, from, OverMemoryLimit()), memories)
  {
    if memories != [] {
      NotesNameMemories(memories[..|memories| - 1], from);
    }
  }

  lemma {:induction false} TokenNotesNameMemories(memories: seq<Memory>)
    ensures NamesMemories(MemoriesOverTokens(memories), memories)
  {
    if memories != [] {
      TokenNotesNameMemories(memories[..|memories| - 1]);
    }
  }

  /** The report names exactly the lost memories. */
  lemma LostMemoriesAreReported(r: Request, b: Budget)
    ensures NamesMemories(MemoryLimitReport(r, b) + MemoryTokenReport(r, b), LostMemories(r, b))
  {
    NotesNameMemories(Ranked(r.memories)[MemoryCut(r, b)..], b.maxMemories.GetOr(0));
    TokenNotesNameMemories(Chosen(ConsideredMemories(r, b), MemoriesTaken(r, b), false));
  }

  lemma {:induction false} LimitNotes(turns: seq<Turn>, from: int, n: nat)
    ensures var notes := Notes(turns, from, OverTurnLimit(n));
      |notes| == |turns| && forall i :: 0 <= i < |notes| ==> notes[i] == DroppedTurn(n - 1 - (from + i), TurnLimit)
  {
    if turns != [] {
      LimitNotes(turns[..|turns| - 1], from, n);
    }
  }

  lemma {:induction false} TokenNotes(history: seq<Turn>, turns: seq<Turn>)
    ensures var notes := OverTokens(history, turns);
      |notes| == |turns|
        && forall i :: 0 <= i < |notes| ==> notes[i] == DroppedTurn(IndexOf(history, turns[i].handle), TokenBudget)
  {
    if turns != [] {
      TokenNotes(history, turns[..|turns| - 1]);
    }
  }

  /** No limit, or one that does not count from the end of a non-empty history. */
  predicate SoundLimit(r: Request, b: Budget) {
    b.maxHistoryTurns.None? || b.maxHistoryTurns.value >= 0 || r.history == []
  }

  /** No turn within the limit repeats an object that stands earlier in the history. */
  ghost predicate Unrepeated(r: Request, b: Budget) {
    forall i, j :: 0 <= i < j < |r.history| && j >= |r.history| - TurnCut(r, b) ==>
      r.history[i].handle != r.history[j].handle
  }

  lemma LimitReportIsExact(r: Request, b: Budget)
    ensures SoundLimit(r, b) <==>
      Names(Notes(NewestTurns(r)[TurnCut(r, b)..], b.maxHistoryTurns.GetOr(0), OverTurnLimit(|r.history|)),
            NewestFirst(|r.history|)[TurnCut(r, b)..])
  {
    var n, cut := |r.history|, TurnCut(r, b);
    var notes := Notes(NewestTurns(r)[cut..], b.maxHistoryTurns.GetOr(0), OverTurnLimit(n));
    LimitNotes(NewestTurns(r)[cut..], b.maxHistoryTurns.GetOr(0), n);
    if !SoundLimit(r, b) {
      assert notes[0].index != NewestFirst(n)[cut..][0];
    }
  }

  lemma ReportSplits(a: seq<Drop>, b: seq<Drop>, p: seq<int>, q: seq<int>)
    requires |a| == |p|
    ensures Names(a + b, p + q) <==> Names(a, p) && Names(b, q)
  {
    if Names(a + b, p + q) {
      forall i | 0 <= i < |a| ensures a[i].DroppedTurn? && a[i].index == p[i] {
        assert (a + b)[i].DroppedTurn? && (a + b)[i].index == (p + q)[i];
      }
      forall i | 0 <= i < |b| ensures b[i].DroppedTurn? && b[i].index == q[i] {
        assert (a + b)[|a| + i].DroppedTurn? && (a + b)[|a| + i].index == (p + q)[|a| + i];
      }
    }
  }

  lemma TokenReportIsExact(r: Request, b: Budget)
    requires Unrepeated(r, b)
    ensures Names(OverTokens(r.history, Chosen(ConsideredTurns(r, b), TurnsTaken(r, b), false)),
                  Chosen(NewestFirst(|r.history|)[..TurnCut(r, b)], TurnsTaken(r, b), false))
  {
    var turns := Chosen(ConsideredTurns(r, b), TurnsTaken(r, b), false);
    var at := Chosen(NewestFirst(|r.history|)[..TurnCut(r, b)], TurnsTaken(r, b), false);
    LostTurnsLookUp(r, b);
    TokenNotes(r.history, turns);
    forall i | 0 <= i < |at| ensures IndexOf(r.history, turns[i].handle) == at[i] {
      IndexOfIsFirst(r.history, at[i]);
    }
  }

  lemma LostTurnsLookUp(r: Request, b: Budget)
    ensures var turns := Chosen(ConsideredTurns(r, b), TurnsTaken(r, b), false);
      var at := Chosen(NewestFirst(|r.history|)[..TurnCut(r, b)], TurnsTaken(r, b), false);
      |turns| == |at| && forall i :: 0 <= i < |at| ==>
        |r.history| - TurnCut(r, b) <= at[i] < |r.history| && turns[i] == r.history[at[i]]
  {
    var order := NewestFirst(|r.history|)[..TurnCut(r, b)];
    var at := Chosen(order, TurnsTaken(r, b), false);
    ChosenLooksUp(r.history, ConsideredTurns(r, b), order, TurnsTaken(r, b), false);
    ChosenFalls(order, TurnsTaken(r, b), false);
    forall i | 0 <= i < |at| ensures at[i] >= |r.history| - TurnCut(r, b) {
      assert at[i] in order;
    }
  }

  ghost function WithCeiling(b: Budget, ceiling: int): Budget { b.(maxTokens := Some(ceiling)) }

  lemma {:induction false} NothingTaken(start: nat, max: int, costs: seq<nat>)
    requires max < 0
    ensures forall i :: 0 <= i < |costs| ==> !Taken(start, max, costs)[i]
  {
    if costs != [] {
      NothingTaken(start, max, costs[..|costs| - 1]);
    }
  }

  lemma {:induction false} AllChosen<T>(items: seq<T>, choice: seq<bool>)
    requires |choice| == |items| && forall i :: 0 <= i < |items| ==> !choice[i]
    ensures Chosen(items, choice, false) == items
  {
    if items != [] {
      AllChosen(items[..|items| - 1], choice[..|items| - 1]);
    }
  }

  lemma NothingFits(r: Request, b: Budget)
    requires MaxTokens(b) < 0
    ensures Chosen(ConsideredTurns(r, b), TurnsTaken(r, b), false) == ConsideredTurns(r, b)
    ensures Chosen(NewestFirst(|r.history|)[..TurnCut(r, b)], TurnsTaken(r, b), false) ==
      NewestFirst(|r.history|)[..TurnCut(r, b)]
  {
    NothingTaken(FixedCost(r), MaxTokens(b), TurnCosts(ConsideredTurns(r, b)));
    AllChosen(ConsideredTurns(r, b), TurnsTaken(r, b));
    AllChosen(NewestFirst(|r.history|)[..TurnCut(r, b)], TurnsTaken(r, b));
  }

  /** Under a ceiling nothing fits below, a repeated object is reported at its first position. */
  lemma RepeatedIsMisreported(r: Request, b: Budget)
    requires Names(TurnReport(r, WithCeiling(b, -1)), LostPositions(r, WithCeiling(b, -1)))
    ensures SoundLimit(r, b) && Unrepeated(r, b)
  {
    var low := WithCeiling(b, -1);
    SplitReport(r, low);
    LimitReportIsExact(r, low);
    NothingFits(r, low);
    NamedMeansFirst(r, low);
  }

  lemma NamedMeansFirst(r: Request, b: Budget)
    requires Names(OverTokens(r.history, ConsideredTurns(r, b)), NewestFirst(|r.history|)[..TurnCut(r, b)])
    ensures Unrepeated(r, b)
  {
    var n, cut := |r.history|, TurnCut(r, b);
    TokenNotes(r.history, ConsideredTurns(r, b));
    forall i, j | 0 <= i < j < n && j >= n - cut ensures r.history[i].handle != r.history[j].handle {
      var k := n - 1 - j;
      assert NewestFirst(n)[..cut][k] == j && ConsideredTurns(r, b)[k] == r.history[j];
      assert OverTokens(r.history, ConsideredTurns(r, b))[k].index == NewestFirst(n)[..cut][k];
      IndexOfIsFirst(r.history, j);
    }
  }

  lemma SplitReport(r: Request, b: Budget)
    ensures Names(TurnReport(r, b), LostPositions(r, b)) <==>
      && Names(Notes(NewestTurns(r)[TurnCut(r, b)..], b.maxHistoryTurns.GetOr(0), OverTurnLimit(|r.history|)),
               NewestFirst(|r.history|)[TurnCut(r, b)..])
      && Names(OverTokens(r.history, Chosen(ConsideredTurns(r, b), TurnsTaken(r, b), false)),
               Chosen(NewestFirst(|r.history|)[..TurnCut(r, b)], TurnsTaken(r, b), false))
  {
    var cut := TurnCut(r, b);
    var notes := Notes(NewestTurns(r)[cut..], b.maxHistoryTurns.GetOr(0), OverTurnLimit(|r.history|));
    LimitNotes(NewestTurns(r)[cut..], b.maxHistoryTurns.GetOr(0), |r.history|);
    ReportSplits(notes, OverTokens(r.history, Chosen(ConsideredTurns(r, b), TurnsTaken(r, b), false)),
      NewestFirst(|r.history|)[cut..], Chosen(NewestFirst(|r.history|)[..cut], TurnsTaken(r, b), false));
  }

  /**
   * The report names exactly the lost turns, whatever the token ceiling, if and only if the turn
   * limit does not count from the end and no turn within it repeats an earlier object.
   */
  lemma ReportIsExactWhen(r: Request, b: Budget)
    ensures SoundLimit(r, b) && Unrepeated(r, b) <==>
      forall ceiling :: Names(TurnReport(r, WithCeiling(b, ceiling)), LostPositions(r, WithCeiling(b, ceiling)))
  {
    if SoundLimit(r, b) && Unrepeated(r, b) {
      forall ceiling ensures Names(TurnReport(r, WithCeiling(b, ceiling)), LostPositions(r, WithCeiling(b, ceiling))) {
        var c := WithCeiling(b, ceiling);
        assert SoundLimit(r, c) && Unrepeated(r, c);
        SplitReport(r, c);
        LimitReportIsExact(r, c);
        TokenReportIsExact(r, c);
      }
    }
    if forall ceiling :: Names(TurnReport(r, WithCeiling(b, ceiling)), LostPositions(r, WithCeiling(b, ceiling))) {
      RepeatedIsMisreported(r, b);
    }
  }

  // --- assembly ----------------------------------------------------------------------------

  function Lines(memories: seq<Memory>): string {
    if memories == [] then "" else Lines(memories[..|memories| - 1]) + Line(memories[|memories| - 1])
  }

  function Line(m: Memory): string { "\n- " + m.content }

  ghost function Contents(turns: seq<Turn>): (m: seq<Message>)
    ensures |m| == |turns| && forall i :: 0 <= i < |turns| ==> m[i] == turns[i].message
  {
    seq(|turns|, i requires 0 <= i < |turns| => turns[i].message)
  }

  ghost function Ids(memories: seq<Memory>): (ids: seq<string>)
    ensures |ids| == |memories| && forall i :: 0 <= i < |memories| ==> ids[i] == memories[i].id
  {
    seq(|memories|, i requires 0 <= i < |memories| => memories[i].id)
  }

  function MemoryMessage(memories: seq<Memory>): Message {
    Message(System, "Relevant context from memory:" + Lines(memories))
  }

  function Recalled(memories: seq<Memory>): seq<Message> {
    if memories == [] then [] else [MemoryMessage(memories)]
  }

  function Asked(r: Request): seq<Message> {
    if r.input == "" then [] else [Message(User, r.input)]
  }

  /** The instruction alone, then the memories, then the kept turns, then the input. */
  ghost function Messages(r: Request, kept: seq<Turn>, memories: seq<Memory>): seq<Message> {
    [Message(System, r.instruction)] + Recalled(memories) + Contents(kept) + Asked(r)
  }

  lemma {:induction false} LinesJoin(a: seq<Memory>, b: seq<Memory>)
    ensures Lines(a + b) == Lines(a) + Lines(b)
  {
    if b == [] {
      assert a + b == a;
    } else {
      var init, last := b[..|b| - 1], b[|b| - 1];
      LinesJoin(a, init);
      LinesOneMore(a + init, last);
      LinesOneMore(init, last);
      assert a + b == (a + init) + [last] && b == init + [last];
      Joined(Lines(a), Lines(init), Line(last));
    }
  }

  lemma Joined(a: string, b: string, c: string)
    ensures (a + b) + c == a + (b + c)
  {
  }

  lemma LinesOneMore(init: seq<Memory>, last: Memory)
    ensures Lines(init + [last]) == Lines(init) + Line(last)
  {
    assert (init + [last])[..|init|] == init;
  }

  /** One line for each memory: each stands whole between the lines before and the lines after it. */
  lemma LineOfMemory(memories: seq<Memory>, i: nat)
    requires i < |memories|
    ensures Lines(memories) == Lines(memories[..i]) + Line(memories[i]) + Lines(memories[i + 1..])
  {
    var upto := memories[..i + 1];
    assert memories == upto + memories[i + 1..];
    LinesJoin(upto, memories[i + 1..]);
    assert upto[..|upto| - 1] == memories[..i] && upto[|upto| - 1] == memories[i];
  }

  /**
   * The instruction comes first and untouched, the input last, the kept turns in their order before it;
   * the memories share one message of their own, right behind the instruction.
   */
  lemma MessagesAre(r: Request, kept: seq<Turn>, memories: seq<Memory>)
    ensures var m, from := Messages(r, kept, memories), if memories == [] then 1 else 2;
      && |m| == from + |kept| + (if r.input == "" then 0 else 1)
      && m[0] == Message(System, r.instruction)
      && (memories != [] ==> m[1] == MemoryMessage(memories))
      && (forall i :: 0 <= i < |kept| ==> m[from + i] == kept[i].message)
      && (r.input != "" ==> m[|m| - 1] == Message(User, r.input))
  {
    FourInARow(Message(System, r.instruction), Recalled(memories), Contents(kept), Asked(r));
  }

  lemma FourInARow(first: Message, a: seq<Message>, b: seq<Message>, c: seq<Message>)
    ensures var m := [first] + a + b + c;
      && |m| == 1 + |a| + |b| + |c| && m[0] == first && (a != [] ==> m[1] == a[0])
      && (forall i :: 0 <= i < |b| ==> m[1 + |a| + i] == b[i]) && (c != [] ==> m[|m| - 1] == c[|c| - 1])
  {
  }

  // --- the reasons given -------------------------------------------------------------------

  ghost predicate AllFor(drops: seq<Drop>, reason: Reason, ofTurns: bool) {
    forall i :: 0 <= i < |drops| ==> drops[i].reason == reason && drops[i].DroppedTurn? == ofTurns
  }

  lemma {:induction false} OverTokensAre(history: seq<Turn>, turns: seq<Turn>)
    ensures AllFor(OverTokens(history, turns), TokenBudget, true) && |OverTokens(history, turns)| == |turns|
  {
    if turns != [] {
      OverTokensAre(history, turns[..|turns| - 1]);
    }
  }

  lemma {:induction false} MemoriesOverTokensAre(memories: seq<Memory>)
    ensures AllFor(MemoriesOverTokens(memories), TokenBudget, false) && |MemoriesOverTokens(memories)| == |memories|
  {
    if memories != [] {
      MemoriesOverTokensAre(memories[..|memories| - 1]);
    }
  }

  /** Each drop names the limit that caused it. */
  lemma ReasonsAreRight(r: Request, b: Budget)
    ensures AllFor(MemoryLimitReport(r, b), MemoryLimit, false) && AllFor(MemoryTokenReport(r, b), TokenBudget, false)
    ensures var beyond := NewestTurns(r)[TurnCut(r, b)..];
      && |TurnReport(r, b)| >= |beyond| && AllFor(TurnReport(r, b)[..|beyond|], TurnLimit, true)
      && AllFor(TurnReport(r, b)[|beyond|..], TokenBudget, true)
  {
    var beyond, memories := NewestTurns(r)[TurnCut(r, b)..], Ranked(r.memories)[MemoryCut(r, b)..];
    var notes := Notes(beyond, b.maxHistoryTurns.GetOr(0), OverTurnLimit(|r.history|));
    var over := OverTokens(r.history, Chosen(ConsideredTurns(r, b), TurnsTaken(r, b), false));
    NotesCount(beyond, b.maxHistoryTurns.GetOr(0), OverTurnLimit(|r.history|));
    forall i | 0 <= i < |beyond| ensures notes[i].reason == TurnLimit && notes[i].DroppedTurn? {
      NotesAt(beyond, b.maxHistoryTurns.GetOr(0), OverTurnLimit(|r.history|), i);
    }
    NotesCount(memories, b.maxMemories.GetOr(0), OverMemoryLimit());
    forall i | 0 <= i < |memories|
      ensures MemoryLimitReport(r, b)[i].reason == MemoryLimit && MemoryLimitReport(r, b)[i].DroppedMemory?
    {
      NotesAt(memories, b.maxMemories.GetOr(0), OverMemoryLimit(), i);
    }
    OverTokensAre(r.history, Chosen(ConsideredTurns(r, b), TurnsTaken(r, b), false));
    MemoriesOverTokensAre(Chosen(ConsideredMemories(r, b), MemoriesTaken(r, b), false));
    assert TurnReport(r, b)[..|beyond|] == notes && TurnReport(r, b)[|beyond|..] == over;
  }

  lemma NotesCount<T>(removed: seq<T>, from: int, describe: (T, int) -> Drop)
    ensures |Notes(removed, from, describe)| == |removed|
  {
    if removed != [] {
      NotesAt(removed, from, describe, 0);
    }
  }

  ghost function Assembled(r: Request, b: Budget): Context {
    Context(
      Messages(r, KeptTurns(r, b), KeptMemories(r, b)), Estimate(r, b), |KeptTurns(r, b)|,
      MemoryLimitReport(r, b) + TurnReport(r, b) + MemoryTokenReport(r, b), Ids(KeptMemories(r, b)))
  }

  class NaiveContextAssembler {
    const defaultBudget: Budget

    constructor (defaultBudget: Budget)
      ensures this.defaultBudget == defaultBudget
    {
      this.defaultBudget := defaultBudget;
    }

    /** Refuses a request without an instruction; otherwise keeps what fits and reports the rest. */
    method Assemble(r: Request) returns (result: Result<Context, string>)
      ensures result.Failure? <==> r.instruction == ""
      ensures result.Success? ==> result.value == Assembled(r, Merged(defaultBudget, r.budget))
    {
      if r.instruction == "" {
        return Failure("instruction must not be empty");
      }
      var budget := Merged(defaultBudget, r.budget);
      var max := MaxTokens(budget);
      var memories, history, dropped := ApplyLimits(r, budget);
      var keptHistory, used, overTokens := FitHistory(r.history, history, FixedCost(r), max);
      var keptMemories, total, memoriesOver := FitMemories(memories, used, max);
      ReversedTwice(ConsideredTurns(r, budget));
      var messages := Render(r, keptHistory, keptMemories);
      var refs := IdsOf(keptMemories);
      AddReports(dropped, overTokens, memoriesOver, r, budget);
      return Success(Context(messages, total, |keptHistory|, dropped + overTokens + memoriesOver, refs));
    }

    method Render(r: Request, kept: seq<Turn>, memories: seq<Memory>) returns (messages: seq<Message>)
      ensures messages == Messages(r, kept, memories)
    {
      messages := [Message(System, r.instruction)];
      if memories != [] {
        messages := messages + [MemoryMessage(memories)];
      }
      var contents := MessagesOf(kept);
      messages := messages + contents;
      if r.input != "" {
        messages := messages + [Message(User, r.input)];
      }
    }

    /** Count limits first: the least relevant memories, then the oldest turns. */
    method ApplyLimits(r: Request, b: Budget) returns (memories: seq<Memory>, history: seq<Turn>, dropped: seq<Drop>)
      ensures memories == ConsideredMemories(r, b) && history == Reversed(ConsideredTurns(r, b))
      ensures dropped == MemoryLimitReport(r, b)
        + Notes(NewestTurns(r)[TurnCut(r, b)..], b.maxHistoryTurns.GetOr(0), OverTurnLimit(|r.history|))
    {
      memories, dropped := ApplyCountLimit(Ranked(r.memories), b.maxMemories, OverMemoryLimit(), []);
      var newest;
      newest, dropped := ApplyCountLimit(Reversed(r.history), b.maxHistoryTurns, OverTurnLimit(|r.history|), dropped);
      history := Reversed(newest);
    }

    /** Offers the turns newest first; each kept turn goes in front of the newer ones. */
    method FitHistory(history: seq<Turn>, limited: seq<Turn>, start: nat, max: int)
      returns (kept: seq<Turn>, used: nat, dropped: seq<Drop>)
      ensures FitSoFar(history, Reversed(limited), start, max, kept, used, dropped)
    {
      kept, used, dropped := [], start, [];
      ghost var newest := Reversed(limited);
      var i := |limited| - 1;
      while i >= 0
        invariant -1 <= i < |limited|
        invariant FitSoFar(history, newest[..|limited| - 1 - i], start, max, kept, used, dropped)
      {
        PrefixGrows(newest, |limited| - 1 - i);
        FitOneMore(history, newest[..|limited| - 1 - i], limited[i], start, max, kept, used, dropped);
        kept, used, dropped := OfferTurn(history, limited[i], max, kept, used, dropped);
        i := i - 1;
      }
      WholePrefix(newest);
    }

    method OfferTurn(history: seq<Turn>, turn: Turn, max: int, kept: seq<Turn>, used: nat, dropped: seq<Drop>)
      returns (kept': seq<Turn>, used': nat, dropped': seq<Drop>)
      ensures if used + MessageTokens(turn.message) > max
        then kept' == kept && used' == used
          && dropped' == dropped + [DroppedTurn(IndexOf(history, turn.handle), TokenBudget)]
        else kept' == [turn] + kept && used' == used + MessageTokens(turn.message) && dropped' == dropped
    {
      var cost := MessageTokens(turn.message);
      if used + cost > max {
        return kept, used, dropped + [DroppedTurn(IndexOf(history, turn.handle), TokenBudget)];
      }
      return [turn] + kept, used + cost, dropped;
    }

    method FitMemories(memories: seq<Memory>, start: nat, max: int)
      returns (kept: seq<Memory>, used: nat, dropped: seq<Drop>)
      ensures MemoriesFit(memories, start, max, kept, used, dropped)
    {
      kept, used, dropped := [], start, [];
      for i := 0 to |memories|
        invariant MemoriesFit(memories[..i], start, max, kept, used, dropped)
      {
        var memory := memories[i];
        var cost := MemoryTokens(memory);
        MemoryFitsOneMore(memories[..i], memory, start, max, kept, used, dropped);
        PrefixGrows(memories, i);
        if used + cost > max {
          dropped := dropped + [DroppedMemory(memory.id, TokenBudget)];
        } else {
          used := used + cost;
          kept := kept + [memory];
        }
      }
      WholePrefix(memories);
    }

    method MessagesOf(turns: seq<Turn>) returns (m: seq<Message>)
      ensures m == Contents(turns)
    {
      m := seq(|turns|, i requires 0 <= i < |turns| => turns[i].message);
    }

    method IdsOf(memories: seq<Memory>) returns (ids: seq<string>)
      ensures ids == Ids(memories)
    {
      ids := seq(|memories|, i requires 0 <= i < |memories| => memories[i].id);
    }
  }

  lemma ReversedTwice<T>(s: seq<T>)
    ensures Reversed(Reversed(s)) == s
  {
  }

  lemma AddReports(limited: seq<Drop>, turns: seq<Drop>, memories: seq<Drop>, r: Request, b: Budget)
    requires limited == MemoryLimitReport(r, b)
      + Notes(NewestTurns(r)[TurnCut(r, b)..], b.maxHistoryTurns.GetOr(0), OverTurnLimit(|r.history|))
    requires turns == OverTokens(r.history, Chosen(ConsideredTurns(r, b), TurnsTaken(r, b), false))
      && memories == MemoryTokenReport(r, b)
    ensures limited + turns + memories == MemoryLimitReport(r, b) + TurnReport(r, b) + MemoryTokenReport(r, b)
  {
    Regroup(MemoryLimitReport(r, b),
      Notes(NewestTurns(r)[TurnCut(r, b)..], b.maxHistoryTurns.GetOr(0), OverTurnLimit(|r.history|)), turns, memories);
  }

  lemma Regroup<T>(a: seq<T>, b: seq<T>, c: seq<T>, d: seq<T>)
    ensures (a + b) + c + d == a + (b + c) + d
  {
  }

  ghost predicate FitSoFar(history: seq<Turn>, newest: seq<Turn>, start: nat, max: int, kept: seq<Turn>, used: nat,
                           dropped: seq<Drop>) {
    && kept == Reversed(Chosen(newest, Taken(start, max, TurnCosts(newest)), true))
    && used == Used(start, max, TurnCosts(newest))
    && dropped == OverTokens(history, Chosen(newest, Taken(start, max, TurnCosts(newest)), false))
  }

  lemma FitOneMore(history: seq<Turn>, newest: seq<Turn>, turn: Turn, start: nat, max: int, kept: seq<Turn>, used: nat,
                   dropped: seq<Drop>)
    requires FitSoFar(history, newest, start, max, kept, used, dropped)
    ensures var cost := MessageTokens(turn.message);
      if used + cost > max
      then FitSoFar(history, newest + [turn], start, max, kept, used,
                    dropped + [DroppedTurn(IndexOf(history, turn.handle), TokenBudget)])
      else FitSoFar(history, newest + [turn], start, max, [turn] + kept, used + cost, dropped)
  {
    var longer := newest + [turn];
    var taken, lost := Chosen(newest, Taken(start, max, TurnCosts(newest)), true),
      Chosen(newest, Taken(start, max, TurnCosts(newest)), false);
    assert longer[..|newest|] == newest;
    assert TurnCosts(longer)[..|newest|] == TurnCosts(newest);
    assert Taken(start, max, TurnCosts(longer))[..|newest|] == Taken(start, max, TurnCosts(newest));
    if used + MessageTokens(turn.message) > max {
      assert (lost + [turn])[..|lost|] == lost;
      assert taken + [] == taken;
    } else {
      assert lost + [] == lost;
      assert Reversed(taken + [turn]) == [turn] + Reversed(taken);
    }
  }

  ghost predicate MemoriesFit(memories: seq<Memory>, start: nat, max: int, kept: seq<Memory>, used: nat,
                              dropped: seq<Drop>) {
    && kept == Chosen(memories, Taken(start, max, MemoryCosts(memories)), true)
    && used == Used(start, max, MemoryCosts(memories))
    && dropped == MemoriesOverTokens(Chosen(memories, Taken(start, max, MemoryCosts(memories)), false))
  }

  lemma MemoryFitsOneMore(memories: seq<Memory>, memory: Memory, start: nat, max: int, kept: seq<Memory>, used: nat,
                          dropped: seq<Drop>)
    requires MemoriesFit(memories, start, max, kept, used, dropped)
    ensures if used + MemoryTokens(memory) > max
      then MemoriesFit(memories + [memory], start, max, kept, used, dropped + [DroppedMemory(memory.id, TokenBudget)])
      else MemoriesFit(memories + [memory], start, max, kept + [memory], used + MemoryTokens(memory), dropped)
  {
    var longer := memories + [memory];
    var lost := Chosen(memories, Taken(start, max, MemoryCosts(memories)), false);
    assert longer[..|memories|] == memories;
    assert MemoryCosts(longer)[..|memories|] == MemoryCosts(memories);
    assert Taken(start, max, MemoryCosts(longer))[..|memories|] == Taken(start, max, MemoryCosts(memories));
    assert (lost + [memory])[..|lost|] == lost;
    assert lost + [] == lost && kept + [] == kept;
  }
}
