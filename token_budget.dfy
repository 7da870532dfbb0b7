/** The token budgeter: `_find_last_index`, the history window assembled by
    `_drop_messages_history_overflow`, and the window choice made by the
    contextless answer before it calls the model. */
module TokenBudget {
  import opened Common

  datatype BudgetError =
    | LastMessageTooLarge      // "Last message alone is too large!"
    | TokenCountMismatch       // "Need exactly 1 token count per message ..."
    | LastUserMessageTooLong   // "Last user message is too long!"

  /** Total of a sequence of token counts. */
  function Sum(s: seq<int>): int
  {
    if s == [] then 0 else s[0] + Sum(s[1..])
  }

  lemma SumSuffix(s: seq<int>, i: nat)
    requires i < |s|
    ensures Sum(s[i..]) == s[i] + Sum(s[i + 1..])
  {
    assert s[i..][1..] == s[i + 1..];
  }

  lemma {:induction false} SumAppend(a: seq<int>, b: seq<int>)
    ensures Sum(a + b) == Sum(a) + Sum(b)
  {
    if a == [] {
      assert a + b == b;
    } else {
      assert (a + b)[1..] == a[1..] + b;
      SumAppend(a[1..], b);
    }
  }

  lemma SumLast(s: seq<int>)
    ensures |s| > 0 ==> Sum(s[|s| - 1..]) == s[|s| - 1]
  {
    if |s| > 0 {
      SumSuffix(s, |s| - 1);
      assert s[|s|..] == [];
    }
  }

  /** With non-negative counts, a longer suffix never has a smaller total. */
  lemma {:induction false} SumSuffixMonotone(s: seq<int>, j: nat, k: nat)
    requires j <= k <= |s|
    requires forall i :: 0 <= i < |s| ==> s[i] >= 0
    ensures Sum(s[j..]) >= Sum(s[k..])
    decreases k - j
  {
    if j < k {
      SumSuffix(s, j);
      SumSuffixMonotone(s, j + 1, k);
    }
  }

  /** The backward scan of `_find_last_index`, resumed with the elements at
      positions `i` and beyond already known to fit: the result is one past
      the first position, counting from the back, whose suffix exceeds the
      budget, or 0 when none does. */
  function CutFrom(lst: seq<int>, maxTokens: int, i: nat): (k: nat)
    requires i <= |lst|
    ensures k <= i
    ensures forall j :: k <= j < i ==> Sum(lst[j..]) <= maxTokens
    ensures k > 0 ==> Sum(lst[k - 1..]) > maxTokens
    decreases i
  {
    if i == 0 then 0
    else if Sum(lst[i - 1..]) > maxTokens then i
    else CutFrom(lst, maxTokens, i - 1)
  }

  /** The cut index: every suffix starting at or after it fits the budget and
      the suffix starting just before it does not. */
  function CutIndex(lst: seq<int>, maxTokens: int): (k: nat)
    ensures k <= |lst|
    ensures forall j :: k <= j < |lst| ==> Sum(lst[j..]) <= maxTokens
    ensures k > 0 ==> Sum(lst[k - 1..]) > maxTokens
  {
    CutFrom(lst, maxTokens, |lst|)
  }

  /** The result of `_find_last_index`: the cut index, unless it leaves
      nothing (the list is empty or its last element alone is over budget). */
  function LastIndex(lst: seq<int>, maxTokens: int): (r: Result<nat, BudgetError>)
    ensures r.Ok? <==> |lst| > 0 && lst[|lst| - 1] <= maxTokens
    ensures r.Err? ==> r.error == LastMessageTooLarge
    ensures r.Ok? ==> r.value < |lst| && Sum(lst[r.value..]) <= maxTokens
    ensures r.Ok? ==> forall j :: r.value <= j < |lst| ==> Sum(lst[j..]) <= maxTokens
    ensures r.Ok? && r.value > 0 ==> Sum(lst[r.value - 1..]) > maxTokens
  {
    var k := CutIndex(lst, maxTokens);
    SumLast(lst);
    if k >= |lst| then Err(LastMessageTooLarge) else Ok(k)
  }

  /** `_find_last_index`: scan the counts from the back, keeping a running
      sum, and stop at the first element that pushes it over the budget. */
  method FindLastIndex(lst: seq<int>, maxPromptTokens: int) returns (r: Result<nat, BudgetError>)
    ensures r == LastIndex(lst, maxPromptTokens)
  {
    var runningSum := 0;
    var lastInd := 0;
    for i := |lst| downto 0
      invariant runningSum == Sum(lst[i..])
      invariant lastInd == 0
      invariant CutFrom(lst, maxPromptTokens, i) == CutIndex(lst, maxPromptTokens)
    {
      SumSuffix(lst, i);
      runningSum := runningSum + lst[i];
      if runningSum > maxPromptTokens {
        lastInd := i + 1;
        break;
      }
    }
    if lastInd >= |lst| {
      return Err(LastMessageTooLarge);
    }
    return Ok(lastInd);
  }

  /** With non-negative counts the kept suffix is the longest one that fits:
      every longer suffix exceeds the budget. */
  lemma LastIndexLongestFit(lst: seq<int>, maxTokens: int, j: nat)
    requires forall i :: 0 <= i < |lst| ==> lst[i] >= 0
    requires LastIndex(lst, maxTokens).Ok?
    requires j < LastIndex(lst, maxTokens).value
    ensures Sum(lst[j..]) > maxTokens
  {
    SumSuffixMonotone(lst, j, LastIndex(lst, maxTokens).value - 1);
  }

  /** The counts the history window is cut by: history first, then the
      system message, then the final message. */
  function WindowCounts(historyTokens: seq<int>, systemTokens: int, finalTokens: int): seq<int>
  {
    historyTokens + [systemTokens, finalTokens]
  }

  /** `_drop_messages_history_overflow`: keep the final message, as much of
      the most recent history as fits and the system message when the cut
      falls at or before the end of the history. */
  function DropHistoryOverflow(
    systemMsg: Option<PromptMessage>, systemTokens: int,
    history: seq<PromptMessage>, historyTokens: seq<int>,
    finalMsg: PromptMessage, finalTokens: int,
    maxTokens: int): (r: Result<seq<PromptMessage>, BudgetError>)
    ensures |history| != |historyTokens| ==> r == Err(TokenCountMismatch)
    ensures |history| == |historyTokens| ==> (r.Ok? <==> finalTokens <= maxTokens)
    ensures r.Err? ==> r.error in {TokenCountMismatch, LastMessageTooLarge}
    ensures r.Ok? ==> |r.value| > 0 && r.value[|r.value| - 1] == finalMsg
  {
    if |history| != |historyTokens| then Err(TokenCountMismatch)
    else
      var all := WindowCounts(historyTokens, systemTokens, finalTokens);
      match LastIndex(all, maxTokens)
      case Err(e) => Err(e)
      case Ok(ind) =>
        var head := if systemMsg.Some? && ind <= |history| then [systemMsg.value] else [];
        var keep := if ind <= |history| then ind else |history|;
        Ok(head + history[keep..] + [finalMsg])
  }

  /** Where the kept history starts in a successful window. */
  function KeptHistoryStart(historyTokens: seq<int>, systemTokens: int, finalTokens: int, maxTokens: int): (j: nat)
    ensures j <= |historyTokens|
  {
    var ind := CutIndex(WindowCounts(historyTokens, systemTokens, finalTokens), maxTokens);
    if ind <= |historyTokens| then ind else |historyTokens|
  }

  /** Total token count of a window: the system count when the system message
      is kept, the kept history's counts and the final count. */
  function KeptTokens(systemKept: bool, systemTokens: int, historyTokens: seq<int>, j: nat, finalTokens: int): int
    requires j <= |historyTokens|
  {
    (if systemKept then systemTokens else 0) + Sum(historyTokens[j..]) + finalTokens
  }

  lemma WindowSuffixSum(historyTokens: seq<int>, systemTokens: int, finalTokens: int, j: nat)
    requires j <= |historyTokens|
    ensures Sum(WindowCounts(historyTokens, systemTokens, finalTokens)[j..])
         == Sum(historyTokens[j..]) + systemTokens + finalTokens
  {
    var all := WindowCounts(historyTokens, systemTokens, finalTokens);
    assert all[j..] == historyTokens[j..] + [systemTokens, finalTokens];
    SumAppend(historyTokens[j..], [systemTokens, finalTokens]);
    assert [systemTokens, finalTokens][1..] == [finalTokens];
    assert [finalTokens][1..] == [];
    assert Sum([finalTokens]) == finalTokens;
    assert Sum([systemTokens, finalTokens]) == systemTokens + finalTokens;
  }

  /** What a successful window is: an optional system message, a suffix of
      the history, and the final message. The system message is kept exactly
      when it is given and fits together with the final message; when it is
      given but dropped, all history is dropped with it. The kept messages
      fit the budget, and (with non-negative counts, the system message
      kept) no longer history suffix would. */
  lemma DropHistoryOverflowWindow(
    systemMsg: Option<PromptMessage>, systemTokens: int,
    history: seq<PromptMessage>, historyTokens: seq<int>,
    finalMsg: PromptMessage, finalTokens: int,
    maxTokens: int)
    requires |history| == |historyTokens| && finalTokens <= maxTokens
    ensures
      var r := DropHistoryOverflow(systemMsg, systemTokens, history, historyTokens, finalMsg, finalTokens, maxTokens);
      var systemKept := systemMsg.Some? && systemTokens + finalTokens <= maxTokens;
      var j := KeptHistoryStart(historyTokens, systemTokens, finalTokens, maxTokens);
      && r == Ok((if systemKept then [systemMsg.value] else []) + history[j..] + [finalMsg])
      && (systemMsg.Some? && !systemKept ==> j == |history|)
      && (systemTokens >= 0 || systemKept ==> KeptTokens(systemKept, systemTokens, historyTokens, j, finalTokens) <= maxTokens)
      && (systemKept && j > 0 ==> Sum(historyTokens[j - 1..]) + systemTokens + finalTokens > maxTokens)
  {
    var all := WindowCounts(historyTokens, systemTokens, finalTokens);
    var n := |historyTokens|;
    var ind := CutIndex(all, maxTokens);
    WindowCut(historyTokens, systemTokens, finalTokens, maxTokens);
    assert LastIndex(all, maxTokens) == Ok(ind);
    if ind > n {
      assert historyTokens[n..] == [];
    }
  }

  /** Where the budgeter cuts the window counts when the final message fits:
      at or before the end of the history exactly when the system message
      fits with the final message, and then at the longest history suffix
      that fits with both. */
  lemma WindowCut(historyTokens: seq<int>, systemTokens: int, finalTokens: int, maxTokens: int)
    requires finalTokens <= maxTokens
    ensures var ind := CutIndex(WindowCounts(historyTokens, systemTokens, finalTokens), maxTokens);
      var n := |historyTokens|;
      && ind <= n + 1
      && (ind <= n <==> systemTokens + finalTokens <= maxTokens)
      && (ind <= n ==> Sum(historyTokens[ind..]) + systemTokens + finalTokens <= maxTokens)
      && (0 < ind <= n ==> Sum(historyTokens[ind - 1..]) + systemTokens + finalTokens > maxTokens)
  {
    var all := WindowCounts(historyTokens, systemTokens, finalTokens);
    var n := |historyTokens|;
    var ind := CutIndex(all, maxTokens);
    SumSuffix(all, n + 1);
    assert all[n + 2..] == [];
    assert Sum(all[n + 1..]) == finalTokens;
    SumSuffix(all, n);
    assert Sum(all[n..]) == systemTokens + finalTokens;
    if ind <= n {
      WindowSuffixSum(historyTokens, systemTokens, finalTokens, ind);
      if ind > 0 {
        WindowSuffixSum(historyTokens, systemTokens, finalTokens, ind - 1);
      }
    }
  }

  /** The counts the contextless answer cuts by: the messages' own counts, and
      the system text's count appended last when there is a system text.
      Its contract only unfolds the definition for the window proofs. */
  function ContextlessCounts(messages: seq<ChatMessage>, systemText: Option<string>, systemTokens: int): (c: seq<int>)
    ensures |c| == |messages| + (if Truthy(systemText) then 1 else 0)
    ensures forall i :: 0 <= i < |messages| ==> c[i] == messages[i].tokenCount
    ensures Truthy(systemText) ==> c[|messages|] == systemTokens
  {
    var counts := seq(|messages|, i requires 0 <= i < |messages| => messages[i].tokenCount);
    if Truthy(systemText) then counts + [systemTokens] else counts
  }

  /** The prompt chosen by `llm_contextless_chat_answer` before it streams the
      model: the system text first (when there is one) and the messages from
      the cut index on; an empty remainder is an error. */
  function ContextlessWindow(messages: seq<ChatMessage>, systemText: Option<string>, systemTokens: int, maxTokens: int)
    : (r: Result<seq<PromptMessage>, BudgetError>)
    ensures r.Ok? ==> |messages| > 0 && |r.value| > 0 && r.value[|r.value| - 1] == ToPrompt(messages[|messages| - 1])
    ensures r.Ok? && Truthy(systemText) ==> r.value[0] == PromptMessage(System, systemText.value)
  {
    var counts := ContextlessCounts(messages, systemText, systemTokens);
    match LastIndex(counts, maxTokens)
    case Err(e) => Err(e)
    case Ok(ind) =>
      var remaining := if ind <= |messages| then ToPrompts(messages)[ind..] else [];
      if remaining == [] then Err(LastUserMessageTooLong)
      else if Truthy(systemText) then Ok([PromptMessage(System, systemText.value)] + remaining)
      else Ok(remaining)
  }

  /** Without a system text the window fails only when there are no messages
      or the last one alone is over budget, and then with the budgeter's own
      error: the "too long" error never fires. */
  lemma ContextlessWithoutSystem(messages: seq<ChatMessage>, systemText: Option<string>, systemTokens: int, maxTokens: int)
    requires !Truthy(systemText)
    ensures var r := ContextlessWindow(messages, systemText, systemTokens, maxTokens);
      && (r.Ok? <==> |messages| > 0 && messages[|messages| - 1].tokenCount <= maxTokens)
      && (r.Err? ==> r.error == LastMessageTooLarge)
  {
    var counts := ContextlessCounts(messages, systemText, systemTokens);
    var li := LastIndex(counts, maxTokens);
    if li.Ok? {
      assert ToPrompts(messages)[li.value..] != [] by {
        assert |ToPrompts(messages)[li.value..]| == |messages| - li.value;
      }
    }
  }

  /** With a system text, the system count is the last element the budgeter
      looks at: the "last message alone is too large" error means the SYSTEM
      text alone is over budget, and the "too long" error means the system
      text fits but not together with the last message. */
  lemma ContextlessWithSystem(messages: seq<ChatMessage>, systemText: Option<string>, systemTokens: int, maxTokens: int)
    requires Truthy(systemText)
    ensures var r := ContextlessWindow(messages, systemText, systemTokens, maxTokens);
      && (r == Err(LastMessageTooLarge) <==> systemTokens > maxTokens)
      && (r == Err(LastUserMessageTooLong) <==>
            systemTokens <= maxTokens
            && (|messages| == 0 || messages[|messages| - 1].tokenCount + systemTokens > maxTokens))
      && (r.Ok? <==> systemTokens <= maxTokens && |messages| > 0
                     && messages[|messages| - 1].tokenCount + systemTokens <= maxTokens)
  {
    var counts := ContextlessCounts(messages, systemText, systemTokens);
    var n := |messages|;
    SystemCountsSums(messages, systemText, systemTokens);
    var li := LastIndex(counts, maxTokens);
    if li.Ok? {
      var ind := li.value;
      assert |ToPrompts(messages)| == n;
      if n > 0 && messages[n - 1].tokenCount + systemTokens <= maxTokens {
        assert ind <= n - 1;
      } else {
        assert ind == n;
      }
    }
  }

  /** The suffix totals of the contextless counts with a system text: the
      system count alone, and the last message with it. */
  lemma SystemCountsSums(messages: seq<ChatMessage>, systemText: Option<string>, systemTokens: int)
    requires Truthy(systemText)
    ensures var counts := ContextlessCounts(messages, systemText, systemTokens);
      && Sum(counts[|messages|..]) == systemTokens
      && (|messages| > 0 ==> Sum(counts[|messages| - 1..]) == messages[|messages| - 1].tokenCount + systemTokens)
  {
    var counts := ContextlessCounts(messages, systemText, systemTokens);
    var n := |messages|;
    SumSuffix(counts, n);
    assert counts[n + 1..] == [];
    if n > 0 {
      SumSuffix(counts, n - 1);
    }
  }

  /** A successful contextless window keeps a non-empty suffix of the
      messages whose counts, with the system count, fit the budget. */
  lemma ContextlessWindowFits(messages: seq<ChatMessage>, systemText: Option<string>, systemTokens: int, maxTokens: int)
    requires ContextlessWindow(messages, systemText, systemTokens, maxTokens).Ok?
    ensures
      var counts := ContextlessCounts(messages, systemText, systemTokens);
      var ind := CutIndex(counts, maxTokens);
      var head := if Truthy(systemText) then [PromptMessage(System, systemText.value)] else [];
      && ind < |messages|
      && ContextlessWindow(messages, systemText, systemTokens, maxTokens).value == head + ToPrompts(messages[ind..])
      && Sum(counts[ind..]) <= maxTokens
  {
    var counts := ContextlessCounts(messages, systemText, systemTokens);
    var li := LastIndex(counts, maxTokens);
    assert li.Ok?;
    var ind := li.value;
    assert ind == CutIndex(counts, maxTokens);
    assert ind < |messages|;
    ToPromptsSuffix(messages, ind);
  }

  /** Converting a suffix of the messages is the suffix of the conversion. */
  lemma ToPromptsSuffix(messages: seq<ChatMessage>, i: nat)
    requires i <= |messages|
    ensures ToPrompts(messages)[i..] == ToPrompts(messages[i..])
  {
  }
}
