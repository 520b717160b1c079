/**
 * Assembling one assistant message from a stream of parts in which the argument deltas of
 * parallel tool calls interleave.
 *
 * `Generate` is the single pass with its pending part and index map.  `ArgumentsOf` says,
 * call by call, which deltas belong to a call; `Coalesced` says what the content is.
 */
module StreamAssembly {
  import opened Wrappers
  import opened Bytes

  datatype Index = Number(n: int) | Id(s: string)

  datatype MediaKind = Image | Audio | Video

  datatype Part =
    | TextPart(text: string)
    | ThinkPart(think: string, encrypted: Option<string>)
    | MediaPart(kind: MediaKind, url: string, mediaId: Option<string>)
    | ToolCall(id: string, name: string, arguments: Option<string>, extras: Option<string>, streamIndex: Option<Index>)
    | ToolCallPart(argumentsPart: Option<string>, index: Option<Index>)

  /** A tool call of the message: the header without its routing index. */
  datatype StoredCall = StoredCall(id: string, name: string, arguments: Option<string>, extras: Option<string>)

  predicate IsContent(part: Part) {
    part.TextPart? || part.ThinkPart? || part.MediaPart?
  }

  /** Appending a delta that may be null to arguments that may be null. */
  function Append(arguments: Option<string>, more: Option<string>): (joined: Option<string>) {
    if more.None? then arguments
    else if arguments.None? then more
    else Some(arguments.value + more.value)
  }

  /** `mergeInPlace`: the merged target, or None where it returns false. */
  function MergeInPlace(target: Part, source: Part): (merged: Option<Part>) {
    match (target, source)
    case (TextPart(a), TextPart(b)) => Some(TextPart(a + b))
    case (ThinkPart(a, signature), ThinkPart(b, next)) =>
      if signature.Some? then None else Some(ThinkPart(a + b, next))
    case (ToolCall(_, _, arguments, _, _), ToolCallPart(more, _)) =>
      Some(target.(arguments := Append(arguments, more)))
    case _ => None
  }

  function Stored(call: Part): (stored: StoredCall)
    requires call.ToolCall?
  {
    StoredCall(call.id, call.name, call.arguments, call.extras)
  }

  // ---------- Which call a delta belongs to ----------

  function Front(parts: seq<Part>): (front: seq<Part>)
    requires parts != []
  {
    parts[..|parts| - 1]
  }

  function Last(parts: seq<Part>): (last: Part)
    requires parts != []
  {
    parts[|parts| - 1]
  }

  function Headers(parts: seq<Part>): (headers: seq<Part>)
    ensures forall header <- headers :: header.ToolCall? && header in parts
  {
    if parts == [] then [] else Headers(Front(parts)) + (if Last(parts).ToolCall? then [Last(parts)] else [])
  }

  /** The most recent call announced under an index. */
  function Announced(parts: seq<Part>, index: Index): (ordinal: Option<nat>)
    ensures ordinal.Some? ==> ordinal.value < |Headers(parts)|
  {
    if parts == [] then None
    else if Last(parts).ToolCall? && Last(parts).streamIndex == Some(index) then Some(|Headers(Front(parts))|)
    else Announced(Front(parts), index)
  }

  /** The call announced last, as long as nothing but deltas has come since. */
  function OpenCall(parts: seq<Part>): (ordinal: Option<nat>)
    ensures ordinal.Some? ==> ordinal.value + 1 == |Headers(parts)|
  {
    if parts == [] then None
    else if Last(parts).ToolCall? then Some(|Headers(Front(parts))|)
    else if Last(parts).ToolCallPart? then OpenCall(Front(parts))
    else None
  }

  /** A delta whose index has been announced. */
  predicate IsRouted(before: seq<Part>, delta: Part) {
    delta.ToolCallPart? && delta.index.Some? && Announced(before, delta.index.value).Some?
  }

  /** The call a delta belongs to: the one its index announced, or else the open one, or none. */
  function Owner(before: seq<Part>, delta: Part): (ordinal: Option<nat>)
    requires delta.ToolCallPart?
    ensures ordinal.Some? ==> ordinal.value < |Headers(before)|
  {
    if IsRouted(before, delta) then Announced(before, delta.index.value) else OpenCall(before)
  }

  /** The arguments of call `k`: those of its header, then its own deltas in stream order. */
  function ArgumentsOf(parts: seq<Part>, k: nat): (arguments: Option<string>)
    requires k < |Headers(parts)|
  {
    var front, last := Front(parts), Last(parts);
    if last.ToolCall? && k == |Headers(front)| then last.arguments
    else if last.ToolCallPart? && Owner(front, last) == Some(k) then Append(ArgumentsOf(front, k), last.argumentsPart)
    else ArgumentsOf(front, k)
  }

  function CallAt(parts: seq<Part>, k: nat): (call: StoredCall)
    requires k < |Headers(parts)|
  {
    var header := Headers(parts)[k];
    StoredCall(header.id, header.name, ArgumentsOf(parts, k), header.extras)
  }

  /** Every announced call, in order of announcement. */
  function Calls(parts: seq<Part>): (calls: seq<StoredCall>)
    ensures |calls| == |Headers(parts)|
  {
    seq(|Headers(parts)|, k requires 0 <= k < |Headers(parts)| => CallAt(parts, k))
  }

  // ---------- Content ----------

  /** The content parts of the stream; None marks what keeps two of them apart. */
  function Items(parts: seq<Part>): (items: seq<Option<Part>>) {
    if parts == [] then []
    else
      var front, last := Front(parts), Last(parts);
      Items(front) + (if IsContent(last) then [Some(last)] else if IsRouted(front, last) then [] else [None])
  }

  /** Adjacent text is one block; adjacent thinking is one block up to its signature. */
  function Join(first: Part, rest: Part): (joined: Option<Part>) {
    match (first, rest)
    case (TextPart(a), TextPart(b)) => Some(TextPart(a + b))
    case (ThinkPart(a, None), ThinkPart(b, signature)) => Some(ThinkPart(a + b, signature))
    case _ => None
  }

  /** The blocks of the message, put together from the back. */
  function Coalesced(items: seq<Option<Part>>): (blocks: seq<Part>)
    ensures items != [] && items[0].Some? ==> blocks != []
  {
    if items == [] then []
    else if items[0].None? then Coalesced(items[1..])
    else
      var rest := Coalesced(items[1..]);
      if |items| > 1 && items[1].Some? && Join(items[0].value, rest[0]).Some?
      then [Join(items[0].value, rest[0]).value] + rest[1..]
      else [items[0].value] + rest
  }

  predicate EndsInContent(items: seq<Option<Part>>) {
    items != [] && items[|items| - 1].Some?
  }

  lemma {:induction false} CoalescedBreak(items: seq<Option<Part>>)
    ensures Coalesced(items + [None]) == Coalesced(items)
  {
    if items == [] {
      assert Coalesced([None][1..]) == [];
    } else {
      CoalescedBreak(items[1..]);
      assert (items + [None])[1..] == items[1..] + [None];
    }
  }

  lemma {:induction false} CoalescedNonEmpty(items: seq<Option<Part>>)
    requires EndsInContent(items)
    ensures Coalesced(items) != []
  {
    if |items| > 1 { CoalescedNonEmpty(items[1..]); }
  }

  /** Joining and merging are one associative operation, seen from its two ends. */
  lemma JoinThenMerge(first: Part, middle: Part, last: Part)
    requires IsContent(last)
    ensures MergeInPlace(first, last) == Join(first, last)
    ensures Join(first, middle).Some? ==>
      MergeInPlace(Join(first, middle).value, last) ==
        match MergeInPlace(middle, last) case None => None case Some(merged) => Join(first, merged)
    ensures MergeInPlace(middle, last).Some? && Join(first, middle).None? ==>
      Join(first, MergeInPlace(middle, last).value).None?
  {
    if first.TextPart? && middle.TextPart? && last.TextPart? {
      Associate(first.text, middle.text, last.text);
    }
    if first.ThinkPart? && middle.ThinkPart? && last.ThinkPart? {
      Associate(first.think, middle.think, last.think);
    }
  }

  /** What merging one more part does to the blocks so far. */
  function Extended(blocks: seq<Part>, mayMerge: bool, part: Part): (longer: seq<Part>) {
    if mayMerge && blocks != [] && MergeInPlace(Last(blocks), part).Some?
    then Front(blocks) + [MergeInPlace(Last(blocks), part).value]
    else blocks + [part]
  }

  /** Merging into the last block from the front agrees with joining from the back. */
  lemma {:induction false} CoalescedSnoc(items: seq<Option<Part>>, part: Part)
    requires IsContent(part)
    ensures Coalesced(items + [Some(part)]) == Extended(Coalesced(items), EndsInContent(items), part)
  {
    var more := items + [Some(part)];
    if items == [] {
      assert more[1..] == [];
    } else {
      var tail := items[1..];
      assert more[1..] == tail + [Some(part)];
      CoalescedSnoc(tail, part);
      if tail == [] {
        if items[0].Some? { JoinThenMerge(items[0].value, part, part); }
      } else {
        if EndsInContent(items) { CoalescedNonEmpty(tail); }
        if items[0].Some? { PrependExtended(items[0].value, Coalesced(tail), tail[0].Some?, EndsInContent(tail), part); }
      }
    }
  }

  function Prepended(first: Part, blocks: seq<Part>, mayJoin: bool): (longer: seq<Part>) {
    if mayJoin && blocks != [] && Join(first, blocks[0]).Some?
    then [Join(first, blocks[0]).value] + blocks[1..]
    else [first] + blocks
  }

  /** Only the last block is extended. */
  lemma ExtendedBehind(front: seq<Part>, back: seq<Part>, mayMerge: bool, part: Part)
    requires back != []
    ensures Extended(front + back, mayMerge, part) == front + Extended(back, mayMerge, part)
  {
    hide MergeInPlace;
    var merged := MergeInPlace(Last(back), part);
    assert Last(front + back) == Last(back) && Front(front + back) == front + Front(back);
    Associate(front, back, [part]);
    if merged.Some? { Associate(front, Front(back), [merged.value]); }
  }

  /** What a part and the block after it become. */
  function Pair(first: Part, second: Part, mayJoin: bool): (blocks: seq<Part>) {
    if mayJoin && Join(first, second).Some? then [Join(first, second).value] else [first, second]
  }

  lemma PrependedIsPair(first: Part, blocks: seq<Part>, mayJoin: bool)
    requires blocks != []
    ensures Prepended(first, blocks, mayJoin) == Pair(first, blocks[0], mayJoin) + blocks[1..]
  {
    hide Join;
  }

  lemma PairExtended(first: Part, second: Part, mayJoin: bool, mayMerge: bool, part: Part)
    requires IsContent(part)
    ensures Prepended(first, Extended([second], mayMerge, part), mayJoin)
         == Extended(Pair(first, second, mayJoin), mayMerge, part)
  {
    JoinThenMerge(first, second, part);
    hide MergeInPlace, Join;
    assert Front([second]) == [] && Front([first, second]) == [first];
  }

  lemma {:induction false} PrependExtended(first: Part, blocks: seq<Part>, mayJoin: bool, mayMerge: bool, part: Part)
    requires IsContent(part)
    requires (mayJoin || mayMerge) ==> blocks != []
    ensures Prepended(first, Extended(blocks, mayMerge, part), mayJoin)
         == Extended(Prepended(first, blocks, mayJoin), mayMerge, part)
  {
    hide MergeInPlace, Join;
    if blocks != [] {
      PrependedIsPair(first, blocks, mayJoin);
      var pair, rest := Pair(first, blocks[0], mayJoin), blocks[1..];
      if rest == [] {
        assert blocks == [blocks[0]] && pair + rest == pair;
        PairExtended(first, blocks[0], mayJoin, mayMerge, part);
      } else {
        PrependExtendedMany(first, blocks, mayJoin, mayMerge, part);
      }
    }
  }

  lemma {:induction false} PrependExtendedMany(first: Part, blocks: seq<Part>, mayJoin: bool, mayMerge: bool, part: Part)
    requires |blocks| > 1
    ensures Prepended(first, Extended(blocks, mayMerge, part), mayJoin)
         == Extended(Prepended(first, blocks, mayJoin), mayMerge, part)
  {
    hide MergeInPlace, Join, Extended, Prepended, Pair;
    var pair, rest := Pair(first, blocks[0], mayJoin), blocks[1..];
    PrependedIsPair(first, blocks, mayJoin);
    ExtendedBehind(pair, rest, mayMerge, part);
    ExtendedBehind([blocks[0]], rest, mayMerge, part);
    assert blocks == [blocks[0]] + rest;
    var longer := Extended(blocks, mayMerge, part);
    assert longer[0] == blocks[0] && longer[1..] == Extended(rest, mayMerge, part);
    PrependedIsPair(first, longer, mayJoin);
  }

  // ---------- One more part ----------

  /** What one more part of the stream does to the calls. */
  lemma CallsSnoc(seen: seq<Part>, part: Part)
    ensures var calls := Calls(seen);
      Calls(seen + [part]) ==
        if part.ToolCall? then calls + [Stored(part)]
        else if part.ToolCallPart? && Owner(seen, part).Some? then
          var k := Owner(seen, part).value;
          calls[k := calls[k].(arguments := Append(calls[k].arguments, part.argumentsPart))]
        else calls
  {
    var more := seen + [part];
    assert Front(more) == seen && Last(more) == part;
    forall k | 0 <= k < |Headers(seen)|
      ensures Headers(more)[k] == Headers(seen)[k]
      ensures ArgumentsOf(more, k) ==
        if part.ToolCallPart? && Owner(seen, part) == Some(k) then Append(ArgumentsOf(seen, k), part.argumentsPart)
        else ArgumentsOf(seen, k)
    {
    }
  }

  lemma SnocStream(seen: seq<Part>, part: Part)
    ensures var more := seen + [part];
      && OpenCall(more) ==
           (if part.ToolCall? then Some(|Headers(seen)|) else if part.ToolCallPart? then OpenCall(seen) else None)
      && Items(more) == Items(seen) +
           (if IsContent(part) then [Some(part)] else if IsRouted(seen, part) then [] else [None])
      && forall index :: Announced(more, index) ==
           if part.ToolCall? && part.streamIndex == Some(index) then Some(|Headers(seen)|) else Announced(seen, index)
  {
    var more := seen + [part];
    assert Front(more) == seen && Last(more) == part;
  }

  /** The message so far, its pending part and its index map, against the stream so far. */
  ghost predicate Assembles(seen: seq<Part>, pending: Option<Part>, content: seq<Part>, toolCalls: seq<StoredCall>,
                            indexMap: map<Index, nat>)
  {
    var openCall := pending.Some? && pending.value.ToolCall?;
    var openBlock := pending.Some? && IsContent(pending.value);
    && content + (if openBlock then [pending.value] else []) == Coalesced(Items(seen))
    && openBlock == EndsInContent(Items(seen))
    && toolCalls + (if openCall then [Stored(pending.value)] else []) == Calls(seen)
    && OpenCall(seen) == (if openCall then Some(|toolCalls|) else None)
    && (forall index :: Announced(seen, index) ==
          if openCall && pending.value.streamIndex == Some(index) then Some(|toolCalls|)
          else if index in indexMap then Some(indexMap[index]) else None)
    && (forall index <- indexMap :: indexMap[index] < |toolCalls|)
  }

  /** True when the pending part is a tool call with this index. */
  predicate IsPendingToolCallAtIndex(pending: Option<Part>, index: Index) {
    pending.Some? && pending.value.ToolCall? && pending.value.streamIndex == Some(index)
  }

  /** A delta for a call that has already been stored. */
  lemma RouteDelta(seen: seq<Part>, pending: Option<Part>, content: seq<Part>, toolCalls: seq<StoredCall>,
                   indexMap: map<Index, nat>, part: Part)
    requires Assembles(seen, pending, content, toolCalls, indexMap)
    requires part.ToolCallPart? && part.index.Some? && !IsPendingToolCallAtIndex(pending, part.index.value)
    requires part.index.value in indexMap
    ensures var k := indexMap[part.index.value];
      && k < |toolCalls|
      && var routed := toolCalls[k := toolCalls[k].(arguments := Append(toolCalls[k].arguments, part.argumentsPart))];
         Assembles(seen + [part], pending, content, routed, indexMap)
  {
    hide Calls, Coalesced, Items, Announced, OpenCall, Headers;
    CallsSnoc(seen, part);
    SnocStream(seen, part);
    assert Announced(seen, part.index.value) == Some(indexMap[part.index.value]);
    assert Items(seen) + [] == Items(seen);
  }

  /** A part that the pending one takes in. */
  lemma MergePart(seen: seq<Part>, pending: Part, content: seq<Part>, toolCalls: seq<StoredCall>,
                  indexMap: map<Index, nat>, part: Part)
    requires Assembles(seen, Some(pending), content, toolCalls, indexMap)
    requires MergeInPlace(pending, part).Some?
    requires IsRouted(seen, part) ==> IsPendingToolCallAtIndex(Some(pending), part.index.value)
    ensures Assembles(seen + [part], Some(MergeInPlace(pending, part).value), content, toolCalls, indexMap)
  {
    hide Calls, Coalesced, Items, Announced, OpenCall, Headers;
    CallsSnoc(seen, part);
    SnocStream(seen, part);
    if IsContent(part) {
      CoalescedSnoc(Items(seen), part);
    } else {
      CoalescedBreak(Items(seen));
      assert Items(seen) + [] == Items(seen);
    }
  }

  /** What `flushPart` leaves behind. */
  function FlushedContent(content: seq<Part>, part: Part): (longer: seq<Part>) {
    if IsContent(part) then content + [part] else content
  }

  function FlushedCalls(toolCalls: seq<StoredCall>, part: Part): (longer: seq<StoredCall>) {
    if part.ToolCall? then toolCalls + [Stored(part)] else toolCalls
  }

  function FlushedMap(indexMap: map<Index, nat>, toolCalls: seq<StoredCall>, part: Part): (larger: map<Index, nat>) {
    if part.ToolCall? && part.streamIndex.Some? then indexMap[part.streamIndex.value := |toolCalls|] else indexMap
  }

  lemma FlushPending(seen: seq<Part>, pending: Part, content: seq<Part>, toolCalls: seq<StoredCall>,
                     indexMap: map<Index, nat>)
    requires Assembles(seen, Some(pending), content, toolCalls, indexMap)
    ensures var newCalls, newMap := FlushedCalls(toolCalls, pending), FlushedMap(indexMap, toolCalls, pending);
      && FlushedContent(content, pending) == Coalesced(Items(seen))
      && newCalls == Calls(seen)
      && (forall index :: Announced(seen, index) == if index in newMap then Some(newMap[index]) else None)
      && (forall index <- newMap :: newMap[index] < |newCalls|)
  {
    hide Calls, Coalesced, Items, Announced, OpenCall, Headers;
  }

  /** A part that starts a new pending one, after whatever was pending has been flushed. */
  lemma StartPart(seen: seq<Part>, pending: Option<Part>, content: seq<Part>, toolCalls: seq<StoredCall>,
                  indexMap: map<Index, nat>, part: Part)
    requires Assembles(seen, pending, content, toolCalls, indexMap)
    requires pending.Some? ==> MergeInPlace(pending.value, part).None?
    requires !IsRouted(seen, part)
    ensures
      if pending.None? then Assembles(seen + [part], Some(part), content, toolCalls, indexMap)
      else Assembles(seen + [part], Some(part), FlushedContent(content, pending.value),
                     FlushedCalls(toolCalls, pending.value), FlushedMap(indexMap, toolCalls, pending.value))
  {
    hide Calls, Coalesced, Items, Announced, OpenCall, Headers;
    CallsSnoc(seen, part);
    SnocStream(seen, part);
    if pending.Some? { FlushPending(seen, pending.value, content, toolCalls, indexMap); }
    if IsContent(part) {
      CoalescedSnoc(Items(seen), part);
    } else {
      CoalescedBreak(Items(seen));
    }
  }

  // ---------- The loop ----------

  class Message {
    var content: seq<Part>
    var toolCalls: seq<StoredCall>

    constructor ()
      ensures content == [] && toolCalls == []
    {
      content, toolCalls := [], [];
    }
  }

  /** `flushPart`: content goes to the content, a call to the calls, an orphaned delta nowhere. */
  method FlushPart(message: Message, part: Part, indexMap: map<Index, nat>) returns (newMap: map<Index, nat>)
    modifies message
    ensures message.content == FlushedContent(old(message.content), part)
    ensures message.toolCalls == FlushedCalls(old(message.toolCalls), part)
    ensures newMap == FlushedMap(indexMap, old(message.toolCalls), part)
  {
    newMap := indexMap;
    if IsContent(part) {
      message.content := message.content + [part];
      return;
    }
    if part.ToolCall? {
      var ordinal := |message.toolCalls|;
      message.toolCalls := message.toolCalls + [StoredCall(part.id, part.name, part.arguments, part.extras)];
      if part.streamIndex.Some? { newMap := newMap[part.streamIndex.value := ordinal]; }
    }
  }

  /** Why `generate` throws instead of returning the message. */
  datatype Verdict = Complete | Empty | ThinkingOnly

  /** `trim` leaves something of the text. */
  predicate HasText(text: string, blank: char -> bool) {
    exists i :: 0 <= i < |text| && !blank(text[i])
  }

  predicate AnyThink(blocks: seq<Part>) { exists block <- blocks :: block.ThinkPart? }

  predicate AnyText(blocks: seq<Part>, blank: char -> bool) {
    exists block <- blocks :: block.TextPart? && HasText(block.text, blank)
  }

  function Judge(content: seq<Part>, toolCalls: seq<StoredCall>, blank: char -> bool): (verdict: Verdict) {
    if content == [] && toolCalls == [] then Empty
    else if AnyThink(content) && !AnyText(content, blank) && toolCalls == [] then ThinkingOnly
    else Complete
  }

  /** The loop of `generate` and its final checks. */
  method Generate(parts: seq<Part>, blank: char -> bool) returns (message: Message, verdict: Verdict)
    ensures fresh(message)
    ensures message.content == Coalesced(Items(parts)) && message.toolCalls == Calls(parts)
    ensures verdict == Judge(message.content, message.toolCalls, blank)
  {
    hide Calls, Coalesced, Items, Assembles;
    message := new Message();
    var pendingPart: Option<Part> := None;
    var toolCallIndexMap: map<Index, nat> := map[];
    NothingSeen();
    for i := 0 to |parts|
      invariant fresh(message)
      invariant Assembles(parts[..i], pendingPart, message.content, message.toolCalls, toolCallIndexMap)
    {
      var part := parts[i];
      ghost var seen := parts[..i];
      assert parts[..i + 1] == seen + [part];
      if part.ToolCallPart? && part.index.Some? && !IsPendingToolCallAtIndex(pendingPart, part.index.value) {
        RoutedIffMapped(seen, pendingPart, message.content, message.toolCalls, toolCallIndexMap, part);
        if part.index.value in toolCallIndexMap {
          RouteDelta(seen, pendingPart, message.content, message.toolCalls, toolCallIndexMap, part);
          var arrayIdx := toolCallIndexMap[part.index.value];
          var target := message.toolCalls[arrayIdx];
          if part.argumentsPart.Some? {
            target := target.(arguments :=
              if target.arguments.None? then part.argumentsPart
              else Some(target.arguments.value + part.argumentsPart.value));
          }
          message.toolCalls := message.toolCalls[arrayIdx := target];
          continue;
        }
      }
      if pendingPart.None? {
        StartPart(seen, pendingPart, message.content, message.toolCalls, toolCallIndexMap, part);
        pendingPart := Some(part);
      } else {
        var merged := MergeInPlace(pendingPart.value, part);
        if merged.Some? {
          MergePart(seen, pendingPart.value, message.content, message.toolCalls, toolCallIndexMap, part);
          pendingPart := merged;
        } else {
          StartPart(seen, pendingPart, message.content, message.toolCalls, toolCallIndexMap, part);
          toolCallIndexMap := FlushPart(message, pendingPart.value, toolCallIndexMap);
          pendingPart := Some(part);
        }
      }
    }
    assert parts[..|parts|] == parts;
    if pendingPart.Some? {
      FlushPending(parts, pendingPart.value, message.content, message.toolCalls, toolCallIndexMap);
      toolCallIndexMap := FlushPart(message, pendingPart.value, toolCallIndexMap);
    } else {
      NothingPending(parts, message.content, message.toolCalls, toolCallIndexMap);
    }
    verdict := Complete;
    if |message.content| == 0 && |message.toolCalls| == 0 { return message, Empty; }
    var hasThink := AnyThink(message.content);
    var hasText := AnyText(message.content, blank);
    var hasToolCalls := |message.toolCalls| > 0;
    if hasThink && !hasText && !hasToolCalls { return message, ThinkingOnly; }
  }

  lemma NothingSeen()
    ensures Assembles([], None, [], [], map[])
  {
  }

  lemma NothingPending(seen: seq<Part>, content: seq<Part>, toolCalls: seq<StoredCall>, indexMap: map<Index, nat>)
    requires Assembles(seen, None, content, toolCalls, indexMap)
    ensures content == Coalesced(Items(seen)) && toolCalls == Calls(seen)
  {
  }

  lemma RoutedIffMapped(seen: seq<Part>, pending: Option<Part>, content: seq<Part>, toolCalls: seq<StoredCall>,
                        indexMap: map<Index, nat>, part: Part)
    requires Assembles(seen, pending, content, toolCalls, indexMap)
    requires part.ToolCallPart? && part.index.Some? && !IsPendingToolCallAtIndex(pending, part.index.value)
    ensures IsRouted(seen, part) <==> part.index.value in indexMap
  {
  }

  // ---------- Parallel tool calls ----------

  /** Headers carry distinct indices and every delta names an earlier header. */
  predicate WellIndexed(parts: seq<Part>) {
    parts == [] ||
    var front, last := Front(parts), Last(parts);
    && WellIndexed(front)
    && (last.ToolCall? ==> last.streamIndex.Some? && Announced(front, last.streamIndex.value).None?)
    && (last.ToolCallPart? ==> IsRouted(front, last))
  }

  /** What the deltas with one index carry, in stream order. */
  function Deltas(parts: seq<Part>, index: Index): (deltas: seq<Option<string>>) {
    if parts == [] then [] else
      Deltas(Front(parts), index) +
        (if Last(parts).ToolCallPart? && Last(parts).index == Some(index) then [Last(parts).argumentsPart] else [])
  }

  function Fold(arguments: Option<string>, deltas: seq<Option<string>>): (folded: Option<string>) {
    if deltas == [] then arguments else
      Append(Fold(arguments, deltas[..|deltas| - 1]), deltas[|deltas| - 1])
  }

  lemma {:induction false} AnnouncedHeader(parts: seq<Part>, index: Index)
    requires WellIndexed(parts)
    ensures forall k :: 0 <= k < |Headers(parts)| ==> Headers(parts)[k].streamIndex.Some?
    ensures forall k :: 0 <= k < |Headers(parts)| && Headers(parts)[k].streamIndex == Some(index) ==>
              Announced(parts, index) == Some(k)
    ensures Announced(parts, index).Some? ==>
              Headers(parts)[Announced(parts, index).value].streamIndex == Some(index)
  {
    if parts != [] { AnnouncedHeader(Front(parts), index); }
  }

  lemma {:induction false} NoDeltasYet(parts: seq<Part>, index: Index)
    requires WellIndexed(parts) && Announced(parts, index).None?
    ensures Deltas(parts, index) == []
  {
    if parts != [] { NoDeltasYet(Front(parts), index); }
  }

  /** With parallel calls told apart by index, a call gets its header's arguments and exactly its own deltas. */
  lemma {:induction false} OwnDeltasOnly(parts: seq<Part>, k: nat)
    requires WellIndexed(parts) && k < |Headers(parts)|
    ensures Headers(parts)[k].streamIndex.Some?
    ensures ArgumentsOf(parts, k) ==
            Fold(Headers(parts)[k].arguments, Deltas(parts, Headers(parts)[k].streamIndex.value))
  {
    var front, last := Front(parts), Last(parts);
    AnnouncedHeader(parts, Number(0));
    var index := Headers(parts)[k].streamIndex.value;
    AnnouncedHeader(parts, index);
    if k < |Headers(front)| {
      OwnDeltasOnly(front, k);
      AnnouncedHeader(front, index);
      assert Deltas(front, index) + [] == Deltas(front, index);
      if last.ToolCallPart? {
        AnnouncedHeader(front, last.index.value);
        assert Owner(front, last) == Some(k) <==> last.index == Some(index);
        FoldSnoc(Headers(parts)[k].arguments, Deltas(front, index), last.argumentsPart);
      }
    } else {
      NoDeltasYet(front, index);
    }
  }

  lemma FoldSnoc(arguments: Option<string>, deltas: seq<Option<string>>, delta: Option<string>)
    ensures Fold(arguments, deltas + [delta]) == Append(Fold(arguments, deltas), delta)
  {
    assert (deltas + [delta])[..|deltas|] == deltas;
  }

  function TextOf(argument: Option<string>): (text: string) {
    argument.GetOr("")
  }

  function Joined(deltas: seq<Option<string>>): (text: string) {
    if deltas == [] then "" else Joined(deltas[..|deltas| - 1]) + TextOf(deltas[|deltas| - 1])
  }

  /** The arguments are null only if everything was; otherwise they are the concatenation. */
  lemma {:induction false} FoldIsConcatenation(arguments: Option<string>, deltas: seq<Option<string>>)
    ensures Fold(arguments, deltas) ==
      if arguments.None? && (forall delta <- deltas :: delta.None?) then None
      else Some(TextOf(arguments) + Joined(deltas))
  {
    if deltas == [] {
      assert TextOf(arguments) + "" == TextOf(arguments);
    } else {
      var n := |deltas| - 1;
      FoldIsConcatenation(arguments, deltas[..n]);
      Associate(TextOf(arguments), Joined(deltas[..n]), TextOf(deltas[n]));
      assert deltas == deltas[..n] + [deltas[n]];
      if forall delta <- deltas[..n] :: delta.None? {
        NullsJoinToNothing(deltas[..n]);
        assert "" + "" + TextOf(deltas[n]) == TextOf(deltas[n]);
      }
      assert TextOf(arguments) + Joined(deltas[..n]) + "" == TextOf(arguments) + Joined(deltas[..n]);
    }
  }

  lemma {:induction false} NullsJoinToNothing(deltas: seq<Option<string>>)
    requires forall delta <- deltas :: delta.None?
    ensures Joined(deltas) == ""
  {
    if deltas != [] { NullsJoinToNothing(deltas[..|deltas| - 1]); }
  }

  /** However the same per-call streams are interleaved, the calls come out the same. */
  lemma {:induction false} InterleavingsAgree(a: seq<Part>, b: seq<Part>)
    requires WellIndexed(a) && WellIndexed(b)
    requires Headers(a) == Headers(b)
    requires forall index :: Deltas(a, index) == Deltas(b, index)
    ensures Calls(a) == Calls(b)
  {
    forall k | 0 <= k < |Headers(a)|
      ensures CallAt(a, k) == CallAt(b, k)
    {
      OwnDeltasOnly(a, k);
      OwnDeltasOnly(b, k);
      var index := Headers(a)[k].streamIndex.value;
      assert Deltas(a, index) == Deltas(b, index);
    }
    hide CallAt;
    assert |Calls(a)| == |Calls(b)|;
  }

  /**
   * A delta without an announced index goes to the open call, whatever its index: no call changes
   * if and only if none is open, or the delta carries nothing the open call would notice.
   */
  lemma {:induction false} UnroutedDeltaHarmlessIff(seen: seq<Part>, delta: Part)
    requires delta.ToolCallPart? && !IsRouted(seen, delta)
    ensures var open, part := OpenCall(seen), delta.argumentsPart;
      Calls(seen + [delta]) == Calls(seen) <==>
        open.None? || part.None? || (part.value == "" && ArgumentsOf(seen, open.value).Some?)
  {
    hide Calls, ArgumentsOf, Headers, OpenCall;
    CallsSnoc(seen, delta);
    var open, part, calls := OpenCall(seen), delta.argumentsPart, Calls(seen);
    if open.Some? {
      var k := open.value;
      ArgumentsOfCall(seen, k);
      var more := calls[k := calls[k].(arguments := Append(calls[k].arguments, part))];
      assert more[k].arguments == Append(calls[k].arguments, part);
      AppendNothing(calls[k].arguments, part);
      if Append(calls[k].arguments, part) == calls[k].arguments { assert more == calls; }
    }
  }

  lemma AppendNothing(arguments: Option<string>, more: Option<string>)
    ensures Append(arguments, more) == arguments <==> more.None? || (more.value == "" && arguments.Some?)
  {
    if arguments.Some? && more.Some? {
      assert |arguments.value + more.value| == |arguments.value| + |more.value|;
      if more.value == "" { assert arguments.value + more.value == arguments.value; }
    }
  }

  lemma ArgumentsOfCall(parts: seq<Part>, k: nat)
    requires k < |Headers(parts)|
    ensures Calls(parts)[k].arguments == ArgumentsOf(parts, k)
  {
  }

  /** For instance right after a header, under any other index or none. */
  lemma {:induction false} UnknownIndexLeaks(header: Part, delta: Part)
    requires header.ToolCall? && delta.ToolCallPart?
    requires delta.index.None? || delta.index != header.streamIndex
    ensures Calls([header, delta]) == [Stored(header.(arguments := Append(header.arguments, delta.argumentsPart)))]
  {
    CallsSnoc([], header);
    CallsSnoc([header], delta);
    SnocStream([], header);
    assert [] + [header] == [header] && [header] + [delta] == [header, delta];
    assert Calls([]) == [];
    assert delta.index.Some? ==> Announced([header], delta.index.value) == Announced([], delta.index.value) == None;
    assert Owner([header], delta) == OpenCall([header]) == Some(0);
  }

  /** Deltas without an index go to the call just announced, as long as nothing else comes. */
  lemma {:induction false} UnindexedDeltas(seen: seq<Part>, header: Part, deltas: seq<Part>)
    requires header.ToolCall? && forall delta <- deltas :: delta.ToolCallPart? && delta.index.None?
    ensures Calls(seen + [header] + deltas)
         == Calls(seen) + [Stored(header.(arguments := Fold(header.arguments, ArgumentParts(deltas))))]
    ensures OpenCall(seen + [header] + deltas) == Some(|Headers(seen)|)
  {
    hide Calls, Headers;
    if deltas == [] {
      assert seen + [header] + deltas == seen + [header];
      CallsSnoc(seen, header);
      SnocStream(seen, header);
    } else {
      var front, last, before := Front(deltas), Last(deltas), Calls(seen);
      UnindexedDeltas(seen, header, front);
      assert seen + [header] + deltas == (seen + [header] + front) + [last];
      CallsSnoc(seen + [header] + front, last);
      SnocStream(seen + [header] + front, last);
      FoldSnoc(header.arguments, ArgumentParts(front), last.argumentsPart);
      assert ArgumentParts(deltas) == ArgumentParts(front) + [last.argumentsPart];
    }
  }

  function ArgumentParts(deltas: seq<Part>): (parts: seq<Option<string>>)
    requires forall delta <- deltas :: delta.ToolCallPart?
  {
    seq(|deltas|, i requires 0 <= i < |deltas| => deltas[i].argumentsPart)
  }

  // ---------- Nothing of the content is lost ----------

  datatype Atom = TextChar(c: char) | ThinkChar(c: char) | Signature(s: string) | MediaAtom(part: Part)

  function TextChars(text: string): (atoms: seq<Atom>) {
    seq(|text|, i requires 0 <= i < |text| => TextChar(text[i]))
  }

  function ThinkChars(text: string): (atoms: seq<Atom>) {
    seq(|text|, i requires 0 <= i < |text| => ThinkChar(text[i]))
  }

  function Atoms(part: Part): (atoms: seq<Atom>) {
    match part
    case TextPart(text) => TextChars(text)
    case ThinkPart(think, signature) => ThinkChars(think) + (if signature.Some? then [Signature(signature.value)] else [])
    case MediaPart(_, _, _) => [MediaAtom(part)]
    case _ => []
  }

  function Flatten(parts: seq<Part>): (atoms: seq<Atom>) {
    if parts == [] then [] else Atoms(parts[0]) + Flatten(parts[1..])
  }

  function FlattenItems(items: seq<Option<Part>>): (atoms: seq<Atom>) {
    if items == [] then [] else (if items[0].Some? then Atoms(items[0].value) else []) + FlattenItems(items[1..])
  }

  lemma JoinKeepsAtoms(first: Part, rest: Part)
    requires Join(first, rest).Some?
    ensures Atoms(Join(first, rest).value) == Atoms(first) + Atoms(rest)
  {
  }

  lemma {:induction false} CoalescingKeepsAtoms(items: seq<Option<Part>>)
    ensures Flatten(Coalesced(items)) == FlattenItems(items)
  {
    hide Atoms, Join;
    if items != [] {
      CoalescingKeepsAtoms(items[1..]);
      if items[0].Some? {
        var rest := Coalesced(items[1..]);
        if rest != [] && Join(items[0].value, rest[0]).Some? {
          JoinKeepsAtoms(items[0].value, rest[0]);
          Associate(Atoms(items[0].value), Atoms(rest[0]), Flatten(rest[1..]));
        }
      }
    }
  }

  lemma {:induction false} FlattenItemsAppend(a: seq<Option<Part>>, b: seq<Option<Part>>)
    ensures FlattenItems(a + b) == FlattenItems(a) + FlattenItems(b)
  {
    hide Atoms;
    if a == [] {
      assert a + b == b;
    } else {
      FlattenItemsAppend(a[1..], b);
      assert (a + b)[1..] == a[1..] + b;
      Associate(if a[0].Some? then Atoms(a[0].value) else [], FlattenItems(a[1..]), FlattenItems(b));
    }
  }

  lemma {:induction false} FlattenAppend(a: seq<Part>, b: seq<Part>)
    ensures Flatten(a + b) == Flatten(a) + Flatten(b)
  {
    hide Atoms;
    if a == [] {
      assert a + b == b;
    } else {
      FlattenAppend(a[1..], b);
      assert (a + b)[1..] == a[1..] + b;
      Associate(Atoms(a[0]), Flatten(a[1..]), Flatten(b));
    }
  }

  lemma {:induction false} ItemsKeepAtoms(parts: seq<Part>)
    ensures FlattenItems(Items(parts)) == Flatten(parts)
  {
    if parts != [] {
      hide Flatten, FlattenItems;
      var front, last := Front(parts), Last(parts);
      ItemsKeepAtoms(front);
      FlattenAppend(front, [last]);
      assert parts == front + [last];
      var item := if IsContent(last) then [Some(last)] else if IsRouted(front, last) then [] else [None];
      FlattenItemsAppend(Items(front), item);
      FlattenOne(last, item);
    } else {
      assert Flatten([]) == FlattenItems([]) == [];
    }
  }

  lemma FlattenOne(part: Part, item: seq<Option<Part>>)
    requires if IsContent(part) then item == [Some(part)] else item == [] || item == [None]
    ensures FlattenItems(item) == Flatten([part])
  {
    assert Flatten([part][1..]) == [];
    if item != [] { assert FlattenItems(item[1..]) == []; }
  }

  /**
   * The text and thinking characters, signatures and media of the message are those of the
   * stream, in the same order: a signature stays behind exactly the thinking it came after.
   */
  lemma ContentConserved(parts: seq<Part>)
    ensures Flatten(Coalesced(Items(parts))) == Flatten(parts)
  {
    CoalescingKeepsAtoms(Items(parts));
    ItemsKeepAtoms(parts);
  }

  // ---------- Which parts share a block ----------

  /** Two neighbouring parts belong in one block: both text, or both thinking and the first unsigned. */
  predicate Sticks(a: Part, b: Part) {
    (a.TextPart? && b.TextPart?) || (a.ThinkPart? && b.ThinkPart? && a.encrypted.None?)
  }

  function AllText(parts: seq<Part>): (text: string) {
    if parts == [] then "" else (if parts[0].TextPart? then parts[0].text else "") + AllText(parts[1..])
  }

  function AllThinking(parts: seq<Part>): (think: string) {
    if parts == [] then "" else (if parts[0].ThinkPart? then parts[0].think else "") + AllThinking(parts[1..])
  }

  /** One block of all these parts: their text, or their thinking with the signature of the last. */
  function Whole(parts: seq<Part>): (block: Part)
    requires parts != []
  {
    var last := Last(parts);
    if last.TextPart? then TextPart(AllText(parts))
    else if last.ThinkPart? then ThinkPart(AllThinking(parts), last.encrypted)
    else last
  }

  /** A stretch of content parts for one block, or something that keeps its neighbours apart. */
  datatype Group = Together(parts: seq<Part>) | Apart

  function Somes(parts: seq<Part>): (items: seq<Option<Part>>)
    ensures |items| == |parts|
  {
    seq(|parts|, i requires 0 <= i < |parts| => Some(parts[i]))
  }

  function Lay(groups: seq<Group>): (items: seq<Option<Part>>) {
    if groups == [] then []
    else (if groups[0].Together? then Somes(groups[0].parts) else [None]) + Lay(groups[1..])
  }

  ghost predicate IsTogether(parts: seq<Part>) {
    && parts != [] && (forall part <- parts :: IsContent(part))
    && forall i, j :: 0 <= i && j == i + 1 < |parts| ==> Sticks(parts[i], parts[j])
  }

  /** Within a group all parts stick, and two groups side by side do not. */
  ghost predicate WellGrouped(groups: seq<Group>) {
    && (forall group <- groups :: group.Together? ==> IsTogether(group.parts))
    && forall i, j :: 0 <= i && j == i + 1 < |groups| && groups[i].Together? && groups[j].Together? ==>
         !Sticks(Last(groups[i].parts), groups[j].parts[0])
  }

  function BlocksOf(groups: seq<Group>): (blocks: seq<Part>)
    requires forall group <- groups :: group.Together? ==> group.parts != []
  {
    if groups == [] then []
    else (if groups[0].Together? then [Whole(groups[0].parts)] else []) + BlocksOf(groups[1..])
  }

  /** A block starts like its first part. */
  lemma {:induction false} FirstBlock(items: seq<Option<Part>>)
    requires items != [] && items[0].Some?
    ensures var first := Coalesced(items)[0];
      (first.TextPart? <==> items[0].value.TextPart?) && (first.ThinkPart? <==> items[0].value.ThinkPart?)
  {
  }

  lemma {:induction false} GroupIsBlock(parts: seq<Part>, tail: seq<Option<Part>>)
    requires IsTogether(parts)
    requires tail != [] && tail[0].Some? ==> !Sticks(Last(parts), tail[0].value)
    ensures Coalesced(Somes(parts) + tail) == [Whole(parts)] + Coalesced(tail)
    decreases |parts|
  {
    var items, first := Somes(parts) + tail, parts[0];
    assert items[1..] == Somes(parts[1..]) + tail;
    if |parts| == 1 {
      assert Somes(parts[1..]) + tail == tail && parts == [first] && parts[1..] == [];
      if tail != [] && tail[0].Some? { FirstBlock(tail); }
      if first.TextPart? { assert first.text + "" == first.text; }
      if first.ThinkPart? { assert first.think + "" == first.think; }
      assert Last(parts) == first && AllText(parts[1..]) == AllThinking(parts[1..]) == "";
      assert Whole(parts) == first;
    } else {
      assert Sticks(first, parts[1]);
      assert Last(parts[1..]) == Last(parts);
      GroupIsBlock(parts[1..], tail);
      assert items[1] == Some(parts[1]);
      SameKinds(parts);
    }
  }

  lemma {:induction false} SameKinds(parts: seq<Part>)
    requires IsTogether(parts)
    ensures (Last(parts).TextPart? <==> parts[0].TextPart?) && (Last(parts).ThinkPart? <==> parts[0].ThinkPart?)
    decreases |parts|
  {
    if |parts| > 1 {
      assert Sticks(parts[0], parts[1]);
      SameKinds(parts[1..]);
    }
  }

  /** The blocks of a stream in groups are the groups. */
  lemma {:induction false} GroupsAreBlocks(groups: seq<Group>)
    requires WellGrouped(groups)
    ensures Coalesced(Lay(groups)) == BlocksOf(groups)
  {
    assert forall group <- groups :: group.Together? ==> group.parts != [];
    hide Coalesced, Whole, Sticks, IsTogether;
    if groups == [] {
      NothingCoalesced([]);
    } else {
      var rest := groups[1..];
      GroupsAreBlocks(rest);
      if groups[0].Together? {
        if rest != [] {
          assert rest[0] == groups[1] && rest[0] in groups;
          LayStart(rest);
        }
        GroupIsBlock(groups[0].parts, Lay(rest));
      } else {
        NothingCoalesced(Lay(rest));
      }
    }
  }

  lemma NothingCoalesced(items: seq<Option<Part>>)
    ensures Coalesced([]) == [] && Coalesced([None] + items) == Coalesced(items)
  {
    assert ([None] + items)[1..] == items;
  }

  lemma LayStart(groups: seq<Group>)
    requires groups != [] && (groups[0].Together? ==> groups[0].parts != [])
    ensures Lay(groups) != []
    ensures Lay(groups)[0] == if groups[0].Together? then Some(groups[0].parts[0]) else None
  {
  }

  /** Every stream is in groups, so the blocks of every stream are known. */
  lemma {:induction false} EveryStreamIsGrouped(items: seq<Option<Part>>) returns (groups: seq<Group>)
    requires forall item <- items :: item.Some? ==> IsContent(item.value)
    ensures WellGrouped(groups) && Lay(groups) == items
  {
    hide Sticks;
    if items == [] {
      groups := [];
    } else {
      var rest := EveryStreamIsGrouped(items[1..]);
      assert items == [items[0]] + items[1..] && items[0] in items;
      if items[0].None? {
        groups := [Apart] + rest;
      } else {
        var first := items[0].value;
        if rest != [] && rest[0].Together? && Sticks(first, rest[0].parts[0]) {
          groups := [Together([first] + rest[0].parts)] + rest[1..];
          assert Somes([first] + rest[0].parts) == [Some(first)] + Somes(rest[0].parts);
          Associate([Some(first)], Somes(rest[0].parts), Lay(rest[1..]));
          LongerGroup(first, rest);
        } else {
          groups := [Together([first])] + rest;
          assert Somes([first]) == [Some(first)];
        }
      }
      assert groups[1..] == if |groups| == |rest| then rest[1..] else rest;
    }
  }

  lemma LongerGroup(first: Part, groups: seq<Group>)
    requires WellGrouped(groups) && groups != [] && groups[0].Together? && IsContent(first)
    requires Sticks(first, groups[0].parts[0])
    ensures WellGrouped([Together([first] + groups[0].parts)] + groups[1..])
  {
    hide Sticks;
    var parts := groups[0].parts;
    assert IsTogether(parts);
    assert Last([first] + parts) == Last(parts);
    assert IsTogether([first] + parts);
  }

  // ---------- Neighbours in the stream ----------

  /** Every one of these parts is a delta whose index has been announced. */
  ghost predicate AllRouted(seen: seq<Part>, between: seq<Part>) {
    forall i :: 0 <= i < |between| ==> IsRouted(seen + between[..i], between[i])
  }

  function Nones(n: nat): (items: seq<Option<Part>>)
    ensures |items| == n && forall item <- items :: item.None?
  {
    seq(n, _ => None)
  }

  lemma AllRoutedSnoc(seen: seq<Part>, between: seq<Part>, part: Part)
    ensures AllRouted(seen, between + [part]) <==> AllRouted(seen, between) && IsRouted(seen + between, part)
  {
    hide IsRouted;
    var more := between + [part];
    assert more[..|between|] == between && more[|between|] == part;
    assert forall i :: 0 <= i < |between| ==> more[i] == between[i] && more[..i] == between[..i];
    if AllRouted(seen, more) {
      assert IsRouted(seen + more[..|between|], more[|between|]);
      forall i | 0 <= i < |between|
        ensures IsRouted(seen + between[..i], between[i])
      {
        assert IsRouted(seen + more[..i], more[i]);
      }
    }
  }

  /** What is no content keeps content apart, unless it is routed. */
  lemma {:induction false} ItemsBetween(seen: seq<Part>, between: seq<Part>) returns (n: nat)
    requires forall part <- between :: !IsContent(part)
    ensures Items(seen + between) == Items(seen) + Nones(n)
    ensures n == 0 <==> AllRouted(seen, between)
  {
    if between == [] {
      n := 0;
      assert seen + between == seen && Items(seen) + Nones(0) == Items(seen);
    } else {
      hide IsRouted, AllRouted, Items, Nones;
      var front, last := Front(between), Last(between);
      assert between == front + [last];
      n := ItemsBetween(seen, front);
      ItemsBetweenStep(seen, front, last, n);
      AllRoutedSnoc(seen, front, last);
      n := if IsRouted(seen + front, last) then n else n + 1;
    }
  }

  lemma {:induction false} ItemsBetweenStep(seen: seq<Part>, front: seq<Part>, last: Part, n: nat)
    requires Items(seen + front) == Items(seen) + Nones(n) && !IsContent(last)
    ensures Items(seen + (front + [last])) == Items(seen) + Nones(if IsRouted(seen + front, last) then n else n + 1)
  {
    hide IsRouted, Items;
    Associate(seen, front, [last]);
    SnocStream(seen + front, last);
    if IsRouted(seen + front, last) {
      assert Items(seen) + Nones(n) + [] == Items(seen) + Nones(n);
    } else {
      Associate(Items(seen), Nones(n), [None]);
      assert Nones(n) + [None] == Nones(n + 1);
    }
  }

  lemma {:induction false} CoalescedBreaks(items: seq<Option<Part>>, n: nat)
    ensures Coalesced(items + Nones(n)) == Coalesced(items)
  {
    if n == 0 {
      assert items + Nones(0) == items;
    } else {
      CoalescedBreaks(items, n - 1);
      assert Nones(n) == Nones(n - 1) + [None];
      Associate(items, Nones(n - 1), [None]);
      CoalescedBreak(items + Nones(n - 1));
    }
  }

  /** The last block ends like the last part: of its kind, and signed if that is. */
  predicate EndsLike(block: Part, part: Part) {
    && (block.TextPart? <==> part.TextPart?) && (block.ThinkPart? <==> part.ThinkPart?)
    && (block.ThinkPart? && part.ThinkPart? ==> block.encrypted == part.encrypted)
  }

  lemma LastBlock(items: seq<Option<Part>>, part: Part)
    requires IsContent(part)
    ensures var blocks := Coalesced(items + [Some(part)]); blocks != [] && EndsLike(Last(blocks), part)
  {
    CoalescedSnoc(items, part);
  }

  /** A block with one more part on its end. */
  function Glued(block: Part, part: Part): (longer: Part)
    requires EndsLike(block, part) || Sticks(block, part)
  {
    if block.TextPart? && part.TextPart? then TextPart(block.text + part.text)
    else if block.ThinkPart? && part.ThinkPart? then ThinkPart(block.think + part.think, part.encrypted)
    else part
  }

  /**
   * A content part shares the block of the one before it if and only if both are text, or both
   * are thinking with no signature yet, and nothing but routed deltas has come between; else it
   * starts a block of its own.
   */
  lemma {:induction false} NeighboursShareIff(before: seq<Part>, a: Part, between: seq<Part>, b: Part)
    requires IsContent(a) && IsContent(b) && forall part <- between :: !IsContent(part)
    ensures var seen := before + [a];
      var shorter, longer := Coalesced(Items(seen)), Coalesced(Items(seen + between + [b]));
      && shorter != [] && (Sticks(Last(shorter), b) <==> Sticks(a, b))
      && longer == if Sticks(a, b) && AllRouted(seen, between) then Front(shorter) + [Glued(Last(shorter), b)]
                   else shorter + [b]
  {
    hide Coalesced, AllRouted, Items;
    var seen := before + [a];
    SnocStream(before, a);
    LastBlock(Items(before), a);
    var n := ItemsBetween(seen, between);
    CoalescedBreaks(Items(seen), n);
    SnocStream(seen + between, b);
    CoalescedSnoc(Items(seen) + Nones(n), b);
    if n == 0 { assert Items(seen) + Nones(n) == Items(seen); }
  }

  /** A stream of text alone is one block. */
  lemma {:induction false} TextIsOneBlock(parts: seq<Part>)
    requires parts != [] && forall part <- parts :: part.TextPart?
    ensures Coalesced(Items(parts)) == [TextPart(AllText(parts))]
  {
    hide Coalesced, Items;
    ItemsOfContent(parts);
    GroupIsBlock(parts, []);
    NothingCoalesced([]);
    assert Somes(parts) + [] == Somes(parts);
  }

  lemma {:induction false} ItemsOfContent(parts: seq<Part>)
    requires forall part <- parts :: IsContent(part)
    ensures Items(parts) == Somes(parts)
  {
    if parts != [] {
      ItemsOfContent(Front(parts));
      assert Somes(parts) == Somes(Front(parts)) + [Some(Last(parts))];
    }
  }

  // ---------- When the response is rejected ----------

  lemma {:induction false} CoalescedKinds(items: seq<Option<Part>>, blank: char -> bool)
    ensures Coalesced(items) == [] <==> forall item <- items :: item.None?
    ensures AnyThink(Coalesced(items)) <==> exists item <- items :: item.Some? && item.value.ThinkPart?
    ensures AnyText(Coalesced(items), blank) <==>
              exists item <- items :: item.Some? && item.value.TextPart? && HasText(item.value.text, blank)
  {
    if items != [] {
      var tail := items[1..];
      CoalescedKinds(tail, blank);
      assert items == [items[0]] + tail;
      if items[0].Some? {
        var first, rest := items[0].value, Coalesced(tail);
        KindsOfPrepended(first, rest, tail != [] && tail[0].Some?, blank);
      }
    }
  }

  lemma KindsOfPrepended(first: Part, rest: seq<Part>, mayJoin: bool, blank: char -> bool)
    ensures var blocks := Prepended(first, rest, mayJoin);
      && blocks != []
      && (AnyThink(blocks) <==> first.ThinkPart? || AnyThink(rest))
      && (AnyText(blocks, blank) <==> (first.TextPart? && HasText(first.text, blank)) || AnyText(rest, blank))
  {
    hide HasText;
    var blocks := Prepended(first, rest, mayJoin);
    if mayJoin && rest != [] && Join(first, rest[0]).Some? {
      var joined := Join(first, rest[0]).value;
      assert rest == [rest[0]] + rest[1..];
      if first.TextPart? { HasTextAppend(first.text, rest[0].text, blank); }
      AnyCons(joined, rest[1..], blank);
      AnyCons(rest[0], rest[1..], blank);
    } else {
      AnyCons(first, rest, blank);
    }
  }

  lemma AnyCons(first: Part, rest: seq<Part>, blank: char -> bool)
    ensures AnyThink([first] + rest) <==> first.ThinkPart? || AnyThink(rest)
    ensures AnyText([first] + rest, blank) <==> (first.TextPart? && HasText(first.text, blank)) || AnyText(rest, blank)
  {
    hide HasText;
    var blocks := [first] + rest;
    assert first in blocks && forall block <- rest :: block in blocks;
  }

  lemma HasTextAppend(a: string, b: string, blank: char -> bool)
    ensures HasText(a + b, blank) <==> HasText(a, blank) || HasText(b, blank)
  {
    var ab := a + b;
    if i :| 0 <= i < |a| && !blank(a[i]) { assert !blank(ab[i]); }
    if i :| 0 <= i < |b| && !blank(b[i]) { assert !blank(ab[|a| + i]); }
    if i :| 0 <= i < |ab| && !blank(ab[i]) { assert if i < |a| then !blank(a[i]) else !blank(b[i - |a|]); }
  }

  lemma {:induction false} ItemsOf(parts: seq<Part>, part: Part)
    requires IsContent(part)
    ensures Some(part) in Items(parts) <==> part in parts
    ensures forall item <- Items(parts) :: item.Some? ==> IsContent(item.value)
  {
    if parts != [] {
      ItemsOf(Front(parts), part);
      assert parts == Front(parts) + [Last(parts)];
    }
  }

  lemma {:induction false} NoHeaders(parts: seq<Part>)
    ensures Headers(parts) == [] <==> forall part <- parts :: !part.ToolCall?
  {
    if parts != [] {
      NoHeaders(Front(parts));
      assert parts == Front(parts) + [Last(parts)];
    }
  }

  /** The response is rejected by what the stream contained, however it was cut into parts. */
  lemma VerdictOfStream(parts: seq<Part>, blank: char -> bool)
    ensures Judge(Coalesced(Items(parts)), Calls(parts), blank) ==
      if forall part <- parts :: !IsContent(part) && !part.ToolCall? then Empty
      else if (exists part <- parts :: part.ThinkPart?)
           && !(exists part <- parts :: part.TextPart? && HasText(part.text, blank))
           && !(exists part <- parts :: part.ToolCall?) then ThinkingOnly
      else Complete
  {
    hide Calls, Coalesced, Items, HasText;
    CoalescedKinds(Items(parts), blank);
    NoHeaders(parts);
    forall part | IsContent(part)
      ensures Some(part) in Items(parts) <==> part in parts
    {
      ItemsOf(parts, part);
    }
    ItemsOf(parts, TextPart(""));
  }
}
