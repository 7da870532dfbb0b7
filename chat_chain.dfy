/** The chat chain resolver, `_create_chat_chain`: starting at the first
    fetched message of a session, follow the "latest child" pointers through
    the session's messages (an arena keyed by identifier) and return the
    newest mainline message with the mainline messages before it. */
module ChatChain {
  import opened Common

  datatype ChainError =
    | NoMessages    // "No messages in Chat Session"
    | InvalidRoot   // the first fetched message has a parent
    | BrokenChain   // a latest-child identifier is not among the fetched messages
    | NoHistory     // "Could not trace chat message history": the root has no child

  /** The newest mainline message and the mainline messages before it, root
      excluded, oldest first. */
  datatype Chain = Chain(last: ChatMessage, history: seq<ChatMessage>)

  /** `{msg.id: msg for msg in all_chat_messages}`: every fetched identifier
      is a key, mapped to a message with that identifier. */
  function IdMap(msgs: seq<ChatMessage>): (ids: map<int, ChatMessage>)
    ensures forall i :: 0 <= i < |msgs| ==> msgs[i].id in ids
    ensures forall id :: id in ids ==> ids[id].id == id
  {
    if msgs == [] then map[]
    else
      var m := msgs[|msgs| - 1];
      IdMap(msgs[..|msgs| - 1])[m.id := m]
  }

  /** A later message with the same identifier replaces an earlier one: every
      key maps to the last fetched message with it. */
  lemma {:induction false} IdMapLast(msgs: seq<ChatMessage>)
    ensures forall id :: id in IdMap(msgs) ==> LastWithId(msgs, id, IdMap(msgs)[id])
    decreases |msgs|
  {
    if msgs != [] {
      var init := msgs[..|msgs| - 1];
      var m := msgs[|msgs| - 1];
      IdMapLast(init);
      assert msgs == init + [m];
      LastWithIdSnoc(init, m, IdMap(init), IdMap(msgs));
    }
  }

  /** Adding a message after `init` makes it the last with its identifier
      and keeps every other identifier's last message. */
  lemma LastWithIdSnoc(init: seq<ChatMessage>, m: ChatMessage, prev: map<int, ChatMessage>, next: map<int, ChatMessage>)
    requires forall id :: id in prev ==> LastWithId(init, id, prev[id])
    requires next == prev[m.id := m]
    ensures forall id :: id in next ==> LastWithId(init + [m], id, next[id])
  {
    var msgs := init + [m];
    assert msgs[|init|] == m;
    assert LastWithId(msgs, m.id, m);
    forall id | id in prev && id != m.id
      ensures LastWithId(msgs, id, prev[id])
    {
      var i :| 0 <= i < |init| && init[i] == prev[id] && prev[id].id == id && forall j :: i < j < |init| ==> init[j].id != id;
      assert msgs[i] == init[i];
      assert forall j :: i < j < |msgs| ==> msgs[j].id != id by {
        forall j | i < j < |msgs| ensures msgs[j].id != id {
          if j < |init| { assert msgs[j] == init[j]; }
        }
      }
    }
  }

  /** `m` is the last of `msgs` whose identifier is `id`. */
  predicate LastWithId(msgs: seq<ChatMessage>, id: int, m: ChatMessage) {
    exists i :: 0 <= i < |msgs| && msgs[i] == m && m.id == id && forall j :: i < j < |msgs| ==> msgs[j].id != id
  }

  /** `if not child_msg: break` — a missing child and the identifier 0 both
      end the walk. */
  predicate NoChild(m: ChatMessage) {
    m.latestChild.None? || m.latestChild.value == 0
  }

  /** `p` is the sequence of messages reached from `m` by following latest
      child pointers, each found among `ids`. */
  predicate Linked(ids: map<int, ChatMessage>, m: ChatMessage, p: seq<ChatMessage>)
    decreases |p|
  {
    p == [] || (!NoChild(m) && m.latestChild.value in ids && ids[m.latestChild.value] == p[0] && Linked(ids, p[0], p[1..]))
  }

  /** How a walk from a message ends: at a message with no child, having
      visited `path`, or at a pointer to a missing message, having visited
      `path` before it. */
  datatype Walk = Reached(path: seq<ChatMessage>) | Dangling(path: seq<ChatMessage>)

  function Prepend(p: seq<ChatMessage>, w: Walk): Walk {
    match w
    case Reached(q) => Reached(p + q)
    case Dangling(q) => Dangling(p + q)
  }

  /** The walk from `m`, allowed at most `fuel` successful lookups; None when
      that is not enough. */
  function WalkFrom(ids: map<int, ChatMessage>, m: ChatMessage, fuel: nat): Option<Walk>
    decreases fuel
  {
    if NoChild(m) then Some(Reached([]))
    else if m.latestChild.value !in ids then Some(Dangling([]))
    else if fuel == 0 then None
    else
      var next := ids[m.latestChild.value];
      match WalkFrom(ids, next, fuel - 1)
      case None => None
      case Some(w) => Some(Prepend([next], w))
  }

  /** The walk from `m` ends: the source's loop has no cycle guard and runs
      forever on a cycle of latest-child pointers. */
  ghost predicate Halts(ids: map<int, ChatMessage>, m: ChatMessage) {
    exists fuel: nat :: WalkFrom(ids, m, fuel).Some?
  }

  /** More fuel never changes a walk that already ended. */
  lemma {:induction false} WalkFuelMonotone(ids: map<int, ChatMessage>, m: ChatMessage, f: nat, g: nat)
    requires f <= g
    requires WalkFrom(ids, m, f).Some?
    ensures WalkFrom(ids, m, g) == WalkFrom(ids, m, f)
    decreases f
  {
    if !NoChild(m) && m.latestChild.value in ids {
      WalkFuelMonotone(ids, ids[m.latestChild.value], f - 1, g - 1);
    }
  }

  /** One step of a walk that ended: it took a lookup, and the rest of it is
      the walk from the child. */
  lemma WalkStep(ids: map<int, ChatMessage>, m: ChatMessage, f: nat)
    requires !NoChild(m) && m.latestChild.value in ids
    requires WalkFrom(ids, m, f).Some?
    ensures f > 0
    ensures WalkFrom(ids, ids[m.latestChild.value], f - 1).Some?
    ensures WalkFrom(ids, m, f).value == Prepend([ids[m.latestChild.value]], WalkFrom(ids, ids[m.latestChild.value], f - 1).value)
  {
  }

  lemma PrependAppend(p: seq<ChatMessage>, q: seq<ChatMessage>, w: Walk)
    ensures Prepend(p, Prepend(q, w)) == Prepend(p + q, w)
  {
    match w
    case Reached(x) => assert p + (q + x) == (p + q) + x;
    case Dangling(x) => assert p + (q + x) == (p + q) + x;
  }

  /** Once the walk from the root ends, with any fuel, the resolver's result
      is read off that walk. */
  lemma SpecFromWalk(msgs: seq<ChatMessage>, fuel: nat)
    requires msgs != [] && msgs[0].parent.None?
    requires WalkFrom(IdMap(msgs), msgs[0], fuel).Some?
    ensures ChainWalkHalts(msgs)
    ensures ChatChainSpec(msgs) == ChainOf(WalkFrom(IdMap(msgs), msgs[0], fuel).value)
  {
    WalkFuelIndependent(IdMap(msgs), msgs[0], fuel, ChooseFuel(IdMap(msgs), msgs[0]));
  }

  /** The loop invariant of the resolver: the messages visited so far,
      followed by the rest of the walk from the current message, make up
      the whole walk. */
  predicate WalkRemains(ids: map<int, ChatMessage>, m: ChatMessage, k: nat, done: seq<ChatMessage>, whole: Walk) {
    WalkFrom(ids, m, k).Some? && Prepend(done, WalkFrom(ids, m, k).value) == whole
  }

  /** The loop of the resolver takes one more lookup: the walk still to do
      shrinks by the child, which joins the messages visited. */
  lemma WalkAdvance(ids: map<int, ChatMessage>, m: ChatMessage, k: nat, done: seq<ChatMessage>, whole: Walk)
    requires WalkRemains(ids, m, k, done, whole)
    requires !NoChild(m) && m.latestChild.value in ids
    ensures k > 0 && WalkRemains(ids, ids[m.latestChild.value], k - 1, done + [ids[m.latestChild.value]], whole)
  {
    WalkStep(ids, m, k);
    PrependAppend(done, [ids[m.latestChild.value]], WalkFrom(ids, ids[m.latestChild.value], k - 1).value);
  }

  /** The loop stops at a message without a child: the walk reached the
      messages visited. */
  lemma WalkReaches(ids: map<int, ChatMessage>, m: ChatMessage, k: nat, done: seq<ChatMessage>, whole: Walk)
    requires WalkRemains(ids, m, k, done, whole)
    requires NoChild(m)
    ensures whole == Reached(done)
  {
    assert done + [] == done;
  }

  /** The loop stops at a pointer to a missing message: the walk dangles
      after the messages visited. */
  lemma WalkDangles(ids: map<int, ChatMessage>, m: ChatMessage, k: nat, done: seq<ChatMessage>, whole: Walk)
    requires WalkRemains(ids, m, k, done, whole)
    requires !NoChild(m) && m.latestChild.value !in ids
    ensures whole == Dangling(done)
  {
    assert done + [] == done;
  }

  lemma PrependEmpty(w: Walk)
    ensures Prepend([], w) == w
  {
    match w
    case Reached(x) => assert [] + x == x;
    case Dangling(x) => assert [] + x == x;
  }

  lemma WalkFuelIndependent(ids: map<int, ChatMessage>, m: ChatMessage, f: nat, g: nat)
    requires WalkFrom(ids, m, f).Some? && WalkFrom(ids, m, g).Some?
    ensures WalkFrom(ids, m, f) == WalkFrom(ids, m, g)
  {
    if f <= g { WalkFuelMonotone(ids, m, f, g); } else { WalkFuelMonotone(ids, m, g, f); }
  }

  /** The walk from `m`, given that it ends. */
  ghost function MainlineWalk(ids: map<int, ChatMessage>, m: ChatMessage): Walk
    requires Halts(ids, m)
  {
    WalkFrom(ids, m, ChooseFuel(ids, m)).value
  }

  /** What `_create_chat_chain` returns for a finished walk. */
  function ChainOf(w: Walk): Result<Chain, ChainError> {
    match w
    case Dangling(_) => Err(BrokenChain)
    case Reached(p) =>
      if p == [] then Err(NoHistory) else Ok(Chain(p[|p| - 1], p[..|p| - 1]))
  }

  /** The precondition of the resolver: whenever the source reaches its loop,
      the loop ends. */
  ghost predicate ChainWalkHalts(msgs: seq<ChatMessage>) {
    msgs != [] && msgs[0].parent.None? ==> Halts(IdMap(msgs), msgs[0])
  }

  /** The resolver's result, as a specification. */
  ghost function ChatChainSpec(msgs: seq<ChatMessage>): (r: Result<Chain, ChainError>)
    requires ChainWalkHalts(msgs)
    ensures msgs == [] ==> r == Err(NoMessages)
    ensures msgs != [] && msgs[0].parent.Some? ==> r == Err(InvalidRoot)
  {
    if msgs == [] then Err(NoMessages)
    else if msgs[0].parent.Some? then Err(InvalidRoot)
    else ChainOf(MainlineWalk(IdMap(msgs), msgs[0]))
  }

  /** `_create_chat_chain`, over the session's messages in fetch order. */
  method CreateChatChain(msgs: seq<ChatMessage>) returns (r: Result<Chain, ChainError>)
    requires ChainWalkHalts(msgs)
    ensures r == ChatChainSpec(msgs)
  {
    if msgs == [] {
      return Err(NoMessages);
    }
    var idToMsg := IdMap(msgs);
    var rootMessage := msgs[0];
    if rootMessage.parent.Some? {
      return Err(InvalidRoot);
    }
    ghost var fuel: nat :| WalkFrom(idToMsg, rootMessage, fuel).Some?;
    SpecFromWalk(msgs, fuel);
    r := FollowMainline(idToMsg, rootMessage, fuel);
  }

  /** The loop of the resolver from the root on: follow latest-child
      pointers until a message without a child, or a pointer to a message
      not in the session. */
  method FollowMainline(idToMsg: map<int, ChatMessage>, rootMessage: ChatMessage, ghost fuel: nat)
    returns (r: Result<Chain, ChainError>)
    requires WalkFrom(idToMsg, rootMessage, fuel).Some?
    ensures r == ChainOf(WalkFrom(idToMsg, rootMessage, fuel).value)
  {
    ghost var whole := WalkFrom(idToMsg, rootMessage, fuel).value;
    assert WalkRemains(idToMsg, rootMessage, fuel, [], whole) by {
      PrependEmpty(whole);
    }
    var mainlineMessages: seq<ChatMessage> := [];
    var currentMessage := rootMessage;
    ghost var left := fuel;
    while true
      invariant WalkRemains(idToMsg, currentMessage, left, mainlineMessages, whole)
      decreases left
    {
      if NoChild(currentMessage) {
        break;
      }
      var childMsg := currentMessage.latestChild.value;
      if childMsg !in idToMsg {
        WalkDangles(idToMsg, currentMessage, left, mainlineMessages, whole);
        return Err(BrokenChain);
      }
      WalkAdvance(idToMsg, currentMessage, left, mainlineMessages, whole);
      currentMessage := idToMsg[childMsg];
      mainlineMessages := mainlineMessages + [currentMessage];
      left := left - 1;
    }
    WalkReaches(idToMsg, currentMessage, left, mainlineMessages, whole);
    if mainlineMessages == [] {
      return Err(NoHistory);
    }
    return Ok(Chain(mainlineMessages[|mainlineMessages| - 1], mainlineMessages[..|mainlineMessages| - 1]));
  }

  /** Some fuel with which the walk from `m` ends. */
  ghost function ChooseFuel(ids: map<int, ChatMessage>, m: ChatMessage): (f: nat)
    requires Halts(ids, m)
    ensures WalkFrom(ids, m, f).Some?
  {
    var fuel: nat :| WalkFrom(ids, m, fuel).Some?;
    fuel
  }

  /** A finished walk follows the latest-child pointers: what it reached is
      linked from `m` and ends at a message without a child; a dangling walk
      is linked from `m` up to a message whose child is missing. */
  lemma {:induction false} WalkIsLinked(ids: map<int, ChatMessage>, m: ChatMessage, fuel: nat)
    requires WalkFrom(ids, m, fuel).Some?
    ensures var w := WalkFrom(ids, m, fuel).value;
      var end := if w.path == [] then m else w.path[|w.path| - 1];
      && Linked(ids, m, w.path)
      && (w.Reached? ==> NoChild(end))
      && (w.Dangling? ==> !NoChild(end) && end.latestChild.value !in ids)
    decreases fuel
  {
    if !NoChild(m) && m.latestChild.value in ids {
      var next := ids[m.latestChild.value];
      WalkIsLinked(ids, next, fuel - 1);
      var w := WalkFrom(ids, next, fuel - 1).value;
      assert ([next] + w.path)[1..] == w.path;
    }
  }

  /** Conversely, a linked sequence that ends at a message without a child is
      what the walk reaches, with as much fuel as the sequence is long. */
  lemma {:induction false} LinkedIsWalk(ids: map<int, ChatMessage>, m: ChatMessage, p: seq<ChatMessage>)
    requires Linked(ids, m, p)
    requires NoChild(if p == [] then m else p[|p| - 1])
    ensures WalkFrom(ids, m, |p|) == Some(Reached(p))
    decreases |p|
  {
    if p != [] {
      assert p[1..] == [] ==> p[0] == p[|p| - 1];
      assert p[1..] != [] ==> p[1..][|p[1..]| - 1] == p[|p| - 1];
      LinkedIsWalk(ids, p[0], p[1..]);
      assert [p[0]] + p[1..] == p;
    }
  }

  /** A successful resolution returns the latest-child path from the first
      fetched message: its messages are linked from the root, oldest first,
      and the returned newest message has no child. */
  lemma ChatChainOkIsMainline(msgs: seq<ChatMessage>)
    requires ChainWalkHalts(msgs)
    requires ChatChainSpec(msgs).Ok?
    ensures var c := ChatChainSpec(msgs).value;
      && msgs != [] && msgs[0].parent.None?
      && Linked(IdMap(msgs), msgs[0], c.history + [c.last])
      && NoChild(c.last)
  {
    var ids := IdMap(msgs);
    var f := ChooseFuel(ids, msgs[0]);
    WalkIsLinked(ids, msgs[0], f);
    var p := WalkFrom(ids, msgs[0], f).value.path;
    assert p[..|p| - 1] + [p[|p| - 1]] == p;
  }

  /** A well-formed session (a parentless first message whose latest-child
      path reaches a childless message after N >= 1 steps) resolves to that
      path's last message and the N - 1 messages before it. */
  lemma WellFormedChainResolves(msgs: seq<ChatMessage>, p: seq<ChatMessage>)
    requires msgs != [] && msgs[0].parent.None?
    requires p != [] && Linked(IdMap(msgs), msgs[0], p) && NoChild(p[|p| - 1])
    ensures ChainWalkHalts(msgs)
    ensures ChatChainSpec(msgs) == Ok(Chain(p[|p| - 1], p[..|p| - 1]))
  {
    var ids := IdMap(msgs);
    LinkedIsWalk(ids, msgs[0], p);
    assert WalkFrom(ids, msgs[0], |p|).Some?;
    WalkFuelIndependent(ids, msgs[0], |p|, ChooseFuel(ids, msgs[0]));
  }

  /** `p` is a latest-child path from `m` whose last message points to an
      identifier that was not fetched. */
  predicate DanglingPath(ids: map<int, ChatMessage>, m: ChatMessage, p: seq<ChatMessage>) {
    Linked(ids, m, p) &&
    var end := if p == [] then m else p[|p| - 1];
    !NoChild(end) && end.latestChild.value !in ids
  }

  /** A path that ends at a missing identifier is what the walk reports as
      dangling. */
  lemma {:induction false} LinkedDanglesIsWalk(ids: map<int, ChatMessage>, m: ChatMessage, p: seq<ChatMessage>)
    requires DanglingPath(ids, m, p)
    ensures WalkFrom(ids, m, |p|) == Some(Dangling(p))
    decreases |p|
  {
    if p != [] {
      assert p[1..] == [] ==> p[0] == p[|p| - 1];
      assert p[1..] != [] ==> p[1..][|p[1..]| - 1] == p[|p| - 1];
      LinkedDanglesIsWalk(ids, p[0], p[1..]);
      assert [p[0]] + p[1..] == p;
    }
  }

  /** A parentless first message whose latest-child path reaches a missing
      identifier makes the resolver report a broken chain. */
  lemma DanglingIsBroken(msgs: seq<ChatMessage>, p: seq<ChatMessage>)
    requires msgs != [] && msgs[0].parent.None?
    requires DanglingPath(IdMap(msgs), msgs[0], p)
    ensures ChainWalkHalts(msgs)
    ensures ChatChainSpec(msgs) == Err(BrokenChain)
  {
    LinkedDanglesIsWalk(IdMap(msgs), msgs[0], p);
    SpecFromWalk(msgs, |p|);
  }

  /** A root without a child is exactly the "could not trace" error. */
  lemma NoHistoryIsChildless(ids: map<int, ChatMessage>, root: ChatMessage)
    requires Halts(ids, root)
    ensures ChainOf(MainlineWalk(ids, root)) == Err(NoHistory) <==> NoChild(root)
  {
    var f := ChooseFuel(ids, root);
    if !NoChild(root) && root.latestChild.value in ids {
      WalkStep(ids, root, f);
    }
  }

  /** A broken chain comes from a walk that ended at a missing identifier. */
  lemma BrokenIsDangling(ids: map<int, ChatMessage>, root: ChatMessage)
    requires Halts(ids, root)
    requires ChainOf(MainlineWalk(ids, root)) == Err(BrokenChain)
    ensures DanglingPath(ids, root, MainlineWalk(ids, root).path)
  {
    WalkIsLinked(ids, root, ChooseFuel(ids, root));
  }

  /** A root without a child is the "could not trace" error; a broken chain
      is reported exactly when the latest-child path from the root reaches a
      missing identifier, and the walked path is such a path. */
  lemma ChatChainErrors(msgs: seq<ChatMessage>)
    requires ChainWalkHalts(msgs)
    requires msgs != [] && msgs[0].parent.None?
    ensures ChatChainSpec(msgs) == Err(NoHistory) <==> NoChild(msgs[0])
    ensures ChatChainSpec(msgs) == Err(BrokenChain) ==>
      DanglingPath(IdMap(msgs), msgs[0], MainlineWalk(IdMap(msgs), msgs[0]).path)
    ensures ChatChainSpec(msgs) == Err(BrokenChain) <==>
      exists p :: DanglingPath(IdMap(msgs), msgs[0], p)
  {
    var ids := IdMap(msgs);
    NoHistoryIsChildless(ids, msgs[0]);
    if ChatChainSpec(msgs) == Err(BrokenChain) {
      BrokenIsDangling(ids, msgs[0]);
      var p := MainlineWalk(ids, msgs[0]).path;
      assert DanglingPath(ids, msgs[0], p);
    }
    if exists p :: DanglingPath(ids, msgs[0], p) {
      var p :| DanglingPath(ids, msgs[0], p);
      DanglingIsBroken(msgs, p);
      assert exists q :: DanglingPath(IdMap(msgs), msgs[0], q);
    }
  }
}
