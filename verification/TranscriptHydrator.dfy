/** Stored agent messages become chat messages, and tool results join the calls they answer. */
module TranscriptHydrator {
  import opened Wrappers
  import opened SessionTree

  datatype Message =
    | User
    | Assistant(calls: seq<ToolCall>)
    | ToolResult(toolCallId: string, result: string)
    | Custom(display: bool)
    | Runtime

  // A message's tool parts; the rest of its content plays no role in placing results.
  datatype Part = Tool(toolCallId: string, result: Option<string>)

  datatype ChatMessage = ChatMessage(id: nat, parts: seq<Part>)

  function PartsOf(calls: seq<ToolCall>): seq<Part> {
    if calls == [] then []
    else
      var last := calls[|calls| - 1];
      PartsOf(calls[..|calls| - 1]) + (if last.id != "" && last.name != "" then [Tool(last.id, None)] else [])
  }

  function FindPart(parts: seq<Part>, callId: string): (p: int)
    ensures -1 <= p < |parts|
    ensures p >= 0 ==> parts[p].toolCallId == callId
    ensures forall i :: 0 <= i < (if p < 0 then |parts| else p) ==> parts[i].toolCallId != callId
  {
    if parts == [] then -1
    else if parts[0].toolCallId == callId then 0
    else
      var p := FindPart(parts[1..], callId);
      if p < 0 then -1 else p + 1
  }

  // The newest message with a part for the call, or -1.
  function LastHolding(output: seq<ChatMessage>, callId: string): (k: int)
    ensures -1 <= k < |output|
    ensures k >= 0 ==> FindPart(output[k].parts, callId) >= 0
    ensures forall i :: k < i < |output| ==> FindPart(output[i].parts, callId) < 0
  {
    if output == [] then -1
    else if FindPart(output[|output| - 1].parts, callId) >= 0 then |output| - 1
    else LastHolding(output[..|output| - 1], callId)
  }

  function WithResult(message: ChatMessage, callId: string, result: string): ChatMessage
    requires FindPart(message.parts, callId) >= 0
  {
    message.(parts := message.parts[FindPart(message.parts, callId) := Tool(callId, Some(result))])
  }

  function Attach(output: seq<ChatMessage>, index: nat, callId: string, result: string): seq<ChatMessage> {
    var k := LastHolding(output, callId);
    if callId != "" && k >= 0 then output[k := WithResult(output[k], callId, result)]
    else output + [ChatMessage(index, [Tool(callId, Some(result))])]
  }

  function HydrateOne(output: seq<ChatMessage>, index: nat, message: Message): seq<ChatMessage> {
    match message
    case User => output + [ChatMessage(index, [])]
    case Assistant(calls) => output + [ChatMessage(index, PartsOf(calls))]
    case ToolResult(callId, result) => Attach(output, index, callId, result)
    case Custom(display) => if display then output + [ChatMessage(index, [])] else output
    case Runtime => output + [ChatMessage(index, [])]
  }

  function Hydrated(messages: seq<Message>, n: nat): seq<ChatMessage>
    requires n <= |messages|
  {
    if n == 0 then [] else HydrateOne(Hydrated(messages, n - 1), n - 1, messages[n - 1])
  }

  method PartsOfCalls(calls: seq<ToolCall>) returns (parts: seq<Part>)
    ensures parts == PartsOf(calls)
  {
    parts := [];
    ghost var done: seq<ToolCall> := [];
    for i := 0 to |calls|
      invariant done == calls[..i] && parts == PartsOf(done)
    {
      assert (done + [calls[i]])[..i] == done;
      done := done + [calls[i]];
      if calls[i].id != "" && calls[i].name != "" {
        parts := parts + [Tool(calls[i].id, None)];
      }
    }
    assert done == calls;
  }

  method AttachResult(before: seq<ChatMessage>, index: nat, callId: string, result: string)
    returns (output: seq<ChatMessage>)
    ensures output == Attach(before, index, callId, result)
  {
    output := before;
    if callId != "" {
      var messageIndex := |output| - 1;
      while messageIndex >= 0
        invariant -1 <= messageIndex < |output|
        invariant forall i :: messageIndex < i < |output| ==> FindPart(output[i].parts, callId) < 0
      {
        var candidate := output[messageIndex];
        var partIndex := FindPart(candidate.parts, callId);
        if partIndex >= 0 {
          output := output[messageIndex :=
            candidate.(parts := candidate.parts[partIndex := Tool(callId, Some(result))])];
          return;
        }
        messageIndex := messageIndex - 1;
      }
    }
    output := output + [ChatMessage(index, [Tool(callId, Some(result))])];
  }

  method ToChatMessagesFromAgentMessages(messages: seq<Message>) returns (output: seq<ChatMessage>)
    ensures output == Hydrated(messages, |messages|)
  {
    output := [];
    for i := 0 to |messages|
      invariant output == Hydrated(messages, i)
    {
      match messages[i]
      case User => output := output + [ChatMessage(i, [])];
      case Assistant(calls) =>
        var parts := PartsOfCalls(calls);
        output := output + [ChatMessage(i, parts)];
      case ToolResult(callId, result) => output := AttachResult(output, i, callId, result);
      case Custom(display) =>
        if display {
          output := output + [ChatMessage(i, [])];
        }
      case Runtime => output := output + [ChatMessage(i, [])];
    }
  }

  // ----- where each result ends up, by message index

  predicate Names(calls: seq<ToolCall>, callId: string) {
    exists i :: 0 <= i < |calls| && calls[i].id == callId && calls[i].name != ""
  }

  // The newest of the first n messages that carries a part for the call: an assistant message
  // that names it, or a result that found none before it.
  function Holder(messages: seq<Message>, n: nat, callId: string): (r: Option<nat>)
    requires n <= |messages|
    ensures r.Some? ==> r.value < n
    decreases n, 0
  {
    if n == 0 then None
    else if Carries(messages, n - 1, callId) then Some(n - 1)
    else Holder(messages, n - 1, callId)
  }

  predicate Carries(messages: seq<Message>, i: nat, callId: string)
    requires i < |messages|
    decreases i, 1
  {
    match messages[i]
    case Assistant(calls) => callId != "" && Names(calls, callId)
    case ToolResult(id, _) => id == callId && (id == "" || Holder(messages, i, id).None?)
    case _ => false
  }

  // The message a result is shown in: its holder, or its own.
  function Home(messages: seq<Message>, i: nat): (r: nat)
    requires i < |messages| && messages[i].ToolResult?
    ensures r <= i
  {
    if messages[i].toolCallId == "" then i else Holder(messages, i, messages[i].toolCallId).GetOr(i)
  }

  // Which messages appear in the transcript.
  predicate Visible(messages: seq<Message>, i: nat)
    requires i < |messages|
  {
    match messages[i]
    case Custom(display) => display
    case ToolResult(_, _) => Home(messages, i) == i
    case _ => true
  }

  // The last of the first n results for a call that is shown in message i.
  function LastResult(messages: seq<Message>, n: nat, i: nat, callId: string): Option<string>
    requires n <= |messages|
  {
    if n == 0 then None
    else if messages[n - 1].ToolResult? && messages[n - 1].toolCallId == callId && Home(messages, n - 1) == i
    then Some(messages[n - 1].result)
    else LastResult(messages, n - 1, i, callId)
  }

  lemma {:induction false} HolderCarries(messages: seq<Message>, n: nat, callId: string)
    requires n <= |messages| && Holder(messages, n, callId).Some?
    ensures Carries(messages, Holder(messages, n, callId).value, callId)
  {
    if !Carries(messages, n - 1, callId) {
      HolderCarries(messages, n - 1, callId);
    }
  }

  lemma {:induction false} NoResultBeforeItself(messages: seq<Message>, n: nat, i: nat, callId: string)
    requires n <= |messages| && i >= n
    ensures LastResult(messages, n, i, callId) == None
  {
    if n > 0 {
      NoResultBeforeItself(messages, n - 1, i, callId);
    }
  }

  // ----- reading the output

  predicate HasMessage(output: seq<ChatMessage>, id: nat) {
    exists k :: 0 <= k < |output| && output[k].id == id
  }

  // The result shown for a call in a message; nothing when there is no such part.
  function ResultIn(message: ChatMessage, callId: string): Option<Option<string>> {
    var p := FindPart(message.parts, callId);
    if p < 0 then None else Some(message.parts[p].result)
  }

  function ResultAt(output: seq<ChatMessage>, id: nat, callId: string): Option<Option<string>> {
    if output == [] then None
    else if output[|output| - 1].id == id then ResultIn(output[|output| - 1], callId)
    else ResultAt(output[..|output| - 1], id, callId)
  }

  predicate Ascending(output: seq<ChatMessage>, bound: nat) {
    && (forall i, j :: 0 <= i < j < |output| ==> output[i].id < output[j].id)
    && (forall i :: 0 <= i < |output| ==> output[i].id < bound)
  }

  lemma {:induction false} ResultSnoc(output: seq<ChatMessage>, message: ChatMessage, id: nat, callId: string)
    ensures ResultAt(output + [message], id, callId)
            == if message.id == id then ResultIn(message, callId) else ResultAt(output, id, callId)
  {
    assert (output + [message])[..|output + [message]| - 1] == output;
  }

  lemma {:induction false} ResultUpdate(output: seq<ChatMessage>, k: nat, message: ChatMessage, id: nat, callId: string)
    requires k < |output| && message.id == output[k].id
    requires forall i, j :: 0 <= i < j < |output| ==> output[i].id != output[j].id
    ensures ResultAt(output[k := message], id, callId)
            == if message.id == id then ResultIn(message, callId) else ResultAt(output, id, callId)
  {
    var last := |output| - 1;
    var front, after := output[..last], output[k := message];
    assert output == front + [output[last]];
    ResultSnoc(front, output[last], id, callId);
    if k == last {
      assert after == front + [message];
      ResultSnoc(front, message, id, callId);
    } else {
      assert after == front[k := message] + [output[last]];
      ResultSnoc(front[k := message], output[last], id, callId);
      ResultUpdate(front, k, message, id, callId);
    }
  }

  lemma {:induction false} FindSnoc(parts: seq<Part>, part: Part, callId: string)
    ensures FindPart(parts + [part], callId) >= 0 <==> FindPart(parts, callId) >= 0 || part.toolCallId == callId
  {
    var all, p := parts + [part], FindPart(parts, callId);
    assert all[|parts|] == part;
    assert p >= 0 ==> all[p].toolCallId == callId;
    assert forall i :: 0 <= i < |parts| ==> all[i] == parts[i];
  }

  lemma {:induction false} NamesSnoc(calls: seq<ToolCall>, call: ToolCall, callId: string)
    ensures Names(calls + [call], callId) <==> Names(calls, callId) || (call.id == callId && call.name != "")
  {
    var all := calls + [call];
    assert all[|calls|] == call;
    assert forall i :: 0 <= i < |calls| ==> all[i] == calls[i];
  }

  lemma {:induction false} PartsNamed(calls: seq<ToolCall>, callId: string)
    requires callId != ""
    ensures FindPart(PartsOf(calls), callId) >= 0 <==> Names(calls, callId)
  {
    if calls != [] {
      var front, last := calls[..|calls| - 1], calls[|calls| - 1];
      assert calls == front + [last];
      PartsNamed(front, callId);
      NamesSnoc(front, last, callId);
      FindSnoc(PartsOf(front), Tool(last.id, None), callId);
      assert PartsOf(front) + [] == PartsOf(front);
    }
  }

  lemma {:induction false} PartsUnanswered(calls: seq<ToolCall>)
    ensures forall i :: 0 <= i < |PartsOf(calls)| ==> PartsOf(calls)[i].result == None
  {
    if calls != [] {
      PartsUnanswered(calls[..|calls| - 1]);
    }
  }

  // ----- what the transcript shows

  lemma {:induction false} ResultStays(message: ChatMessage, callId: string, result: string, other: string)
    requires FindPart(message.parts, callId) >= 0
    ensures FindPart(WithResult(message, callId, result).parts, other) == FindPart(message.parts, other)
    ensures ResultIn(WithResult(message, callId, result), other)
            == if other == callId then Some(Some(result)) else ResultIn(message, other)
  {
    var p, after := FindPart(message.parts, callId), WithResult(message, callId, result).parts;
    assert forall i :: 0 <= i < |after| ==> after[i].toolCallId == message.parts[i].toolCallId;
    SameFind(message.parts, after, other);
  }

  lemma {:induction false} SameFind(a: seq<Part>, b: seq<Part>, callId: string)
    requires |a| == |b| && forall i :: 0 <= i < |a| ==> a[i].toolCallId == b[i].toolCallId
    ensures FindPart(a, callId) == FindPart(b, callId)
  {
    var p, q := FindPart(a, callId), FindPart(b, callId);
    assert p >= 0 ==> b[p].toolCallId == callId;
    assert q >= 0 ==> a[q].toolCallId == callId;
  }

  lemma {:induction false} HoldingSnoc(output: seq<ChatMessage>, message: ChatMessage, callId: string)
    ensures LastHolding(output + [message], callId)
            == if FindPart(message.parts, callId) >= 0 then |output| else LastHolding(output, callId)
  {
    assert (output + [message])[..|output + [message]| - 1] == output;
  }

  lemma {:induction false} SameHolding(a: seq<ChatMessage>, b: seq<ChatMessage>, callId: string)
    requires |a| == |b| && forall i :: 0 <= i < |a| ==> (FindPart(a[i].parts, callId) >= 0
             <==> FindPart(b[i].parts, callId) >= 0)
    ensures LastHolding(a, callId) == LastHolding(b, callId)
  {
    var p, q := LastHolding(a, callId), LastHolding(b, callId);
    assert p >= 0 ==> FindPart(b[p].parts, callId) >= 0;
    assert q >= 0 ==> FindPart(a[q].parts, callId) >= 0;
  }

  function IdAt(output: seq<ChatMessage>, k: int): Option<nat> {
    if 0 <= k < |output| then Some(output[k].id) else None
  }

  // The newest holding message of the output is the holder, for every call.
  predicate HolderIs(output: seq<ChatMessage>, messages: seq<Message>, n: nat, callId: string)
    requires n <= |messages|
  {
    Holder(messages, n, callId) == IdAt(output, LastHolding(output, callId))
  }

  // Each message shows, for each call it carries, the last result that belongs there.
  predicate ResultIs(output: seq<ChatMessage>, messages: seq<Message>, n: nat, i: nat, callId: string)
    requires n <= |messages|
  {
    ResultAt(output, i, callId) == if i < n && Carries(messages, i, callId)
        then Some(LastResult(messages, n, i, callId)) else None
  }

  lemma {:induction false} HydratedAscends(messages: seq<Message>, n: nat)
    requires n <= |messages|
    ensures Ascending(Hydrated(messages, n), n)
  {
    if n > 0 {
      HydratedAscends(messages, n - 1);
    }
  }

  // Attaching leaves every message's id and parts in place, and adds one only if none holds the call.
  lemma {:induction false} AttachHolding(output: seq<ChatMessage>, index: nat, id: string, result: string,
                                         callId: string)
    requires callId != ""
    ensures var after := Attach(output, index, id, result);
            && (forall j :: 0 <= j < |output| ==> after[j].id == output[j].id)
            && LastHolding(after, callId)
               == (if id == callId && LastHolding(output, id) < 0 then |output| else LastHolding(output, callId))
            && (id == callId && LastHolding(output, id) < 0 ==> after[|output|].id == index)
  {
    var k := LastHolding(output, id);
    if id != "" && k >= 0 {
      ResultStays(output[k], id, result, callId);
      SameHolding(output, output[k := WithResult(output[k], id, result)], callId);
    } else {
      var added := ChatMessage(index, [Tool(id, Some(result))]);
      assert added.parts[0].toolCallId == id;
      HoldingSnoc(output, added, callId);
    }
  }

  lemma {:induction false} AttachedHolder(output: seq<ChatMessage>, messages: seq<Message>, n: nat, callId: string)
    requires 0 < n <= |messages| && callId != "" && messages[n - 1].ToolResult?
    requires HolderIs(output, messages, n - 1, callId)
    ensures HolderIs(Attach(output, n - 1, messages[n - 1].toolCallId, messages[n - 1].result), messages, n, callId)
  {
    HolderAfterResult(messages, n, callId);
    HolderCarried(output, n - 1, messages[n - 1].toolCallId, messages[n - 1].result, callId,
                  Holder(messages, n - 1, callId), Holder(messages, n, callId));
  }

  lemma {:induction false} HolderAfterResult(messages: seq<Message>, n: nat, callId: string)
    requires 0 < n <= |messages| && callId != "" && messages[n - 1].ToolResult?
    ensures Holder(messages, n, callId)
            == if messages[n - 1].toolCallId == callId && Holder(messages, n - 1, callId).None? then Some(n - 1)
               else Holder(messages, n - 1, callId)
  {
  }

  lemma {:induction false} HolderCarried(output: seq<ChatMessage>, index: nat, id: string, result: string,
                                         callId: string,
                                         before: Option<nat>, after: Option<nat>)
    requires callId != ""
    requires before == IdAt(output, LastHolding(output, callId))
    requires after == if id == callId && before.None? then Some(index) else before
    ensures var attached := Attach(output, index, id, result);
            after == IdAt(attached, LastHolding(attached, callId))
  {
    AttachHolding(output, index, id, result, callId);
  }

  lemma {:induction false} AddedHolder(output: seq<ChatMessage>, messages: seq<Message>, n: nat, parts: seq<Part>,
                                       callId: string)
    requires 0 < n <= |messages| && HolderIs(output, messages, n - 1, callId)
    requires FindPart(parts, callId) >= 0 <==> Carries(messages, n - 1, callId)
    ensures HolderIs(output + [ChatMessage(n - 1, parts)], messages, n, callId)
  {
    HoldingSnoc(output, ChatMessage(n - 1, parts), callId);
  }

  lemma {:induction false} HydratedHolders(messages: seq<Message>, n: nat, callId: string)
    requires n <= |messages| && callId != ""
    ensures HolderIs(Hydrated(messages, n), messages, n, callId)
  {
    if n > 0 {
      var output := Hydrated(messages, n - 1);
      HydratedHolders(messages, n - 1, callId);
      match messages[n - 1]
      case Assistant(calls) =>
        PartsNamed(calls, callId);
        AddedHolder(output, messages, n, PartsOf(calls), callId);
      case ToolResult(id, result) => AttachedHolder(output, messages, n, callId);
      case _ => AddedHolder(output, messages, n, [], callId);
    }
  }

  lemma {:induction false} HydratedVisible(messages: seq<Message>, n: nat, i: nat)
    requires n <= |messages|
    ensures HasMessage(Hydrated(messages, n), i) <==> i < n && Visible(messages, i)
  {
    if n > 0 {
      var output, message := Hydrated(messages, n - 1), messages[n - 1];
      HydratedVisible(messages, n - 1, i);
      if message.ToolResult? && message.toolCallId != "" {
        HydratedHolders(messages, n - 1, message.toolCallId);
        HydratedAscends(messages, n - 1);
        HasAfterAttach(output, n - 1, message.toolCallId, message.result, i);
      } else {
        HasAfterSnoc(output, n - 1, message, i);
      }
    }
  }

  lemma {:induction false} HasAfterAttach(output: seq<ChatMessage>, index: nat, callId: string, result: string, i: nat)
    requires callId != ""
    ensures HasMessage(Attach(output, index, callId, result), i)
            <==> HasMessage(output, i) || (LastHolding(output, callId) < 0 && i == index)
  {
    var after, k := Attach(output, index, callId, result), LastHolding(output, callId);
    assert forall j :: 0 <= j < |output| ==> after[j].id == output[j].id;
    if k < 0 {
      assert after[|output|].id == index;
    }
  }

  lemma {:induction false} HasAfterSnoc(output: seq<ChatMessage>, index: nat, message: Message, i: nat)
    requires message.ToolResult? ==> message.toolCallId == ""
    ensures HasMessage(HydrateOne(output, index, message), i)
            <==> HasMessage(output, i) || (i == index && (message.Custom? ==> message.display))
  {
    var after := HydrateOne(output, index, message);
    assert forall j :: 0 <= j < |output| ==> after[j] == output[j];
    if |after| > |output| {
      assert after[|output|].id == index;
    }
  }

  // Attaching shows the result at the holder, or in a message of its own.
  lemma {:induction false} AttachResults(output: seq<ChatMessage>, index: nat, id: string, result: string, i: nat,
                                         callId: string)
    requires Ascending(output, index) && callId != ""
    ensures var k := LastHolding(output, id);
            var at := if id != "" && k >= 0 then output[k].id else index;
            ResultAt(Attach(output, index, id, result), i, callId)
            == if i == at && callId == id then Some(Some(result))
               else if i == index && (id == "" || k < 0) then None
               else ResultAt(output, i, callId)
  {
    var k := LastHolding(output, id);
    if id != "" && k >= 0 {
      ResultStays(output[k], id, result, callId);
      ResultUpdate(output, k, WithResult(output[k], id, result), i, callId);
      ResultPlace(output, k, i, callId);
    } else {
      var added := ChatMessage(index, [Tool(id, Some(result))]);
      assert FindPart(added.parts, callId) == if id == callId then 0 else -1;
      ResultSnoc(output, added, i, callId);
      ResultBeyond(output, i, callId);
    }
  }

  lemma {:induction false} ResultBeyond(output: seq<ChatMessage>, id: nat, callId: string)
    ensures !HasMessage(output, id) ==> ResultAt(output, id, callId) == None
  {
    if output != [] {
      var front := output[..|output| - 1];
      ResultBeyond(front, id, callId);
      assert HasMessage(front, id) ==> HasMessage(output, id) by {
        assert forall k :: 0 <= k < |front| ==> front[k] == output[k];
      }
    }
  }
  lemma {:induction false} ResultPlace(output: seq<ChatMessage>, k: nat, id: nat, callId: string)
    requires k < |output|
    requires forall i, j :: 0 <= i < j < |output| ==> output[i].id != output[j].id
    ensures output[k].id == id ==> ResultAt(output, id, callId) == ResultIn(output[k], callId)
  {
    var last := |output| - 1;
    if k < last {
      ResultPlace(output[..last], k, id, callId);
    }
  }

  // One more result belongs to its home alone.
  lemma {:induction false} LastResultStep(messages: seq<Message>, n: nat, i: nat, callId: string)
    requires 0 < n <= |messages| && callId != "" && messages[n - 1].ToolResult?
    ensures var id := messages[n - 1].toolCallId;
            && LastResult(messages, n, i, callId)
               == (if id == callId && Home(messages, n - 1) == i then Some(messages[n - 1].result)
                   else LastResult(messages, n - 1, i, callId))
            && (id == callId ==> Carries(messages, Home(messages, n - 1), callId))
            && (Carries(messages, n - 1, callId) <==> id == callId && Home(messages, n - 1) == n - 1)
  {
    var id := messages[n - 1].toolCallId;
    if id == callId && Holder(messages, n - 1, id).Some? {
      HolderCarries(messages, n - 1, id);
    }
  }

  // What the transcript before a result says about the result's call.
  predicate Ready(output: seq<ChatMessage>, messages: seq<Message>, n: nat)
    requires n < |messages| && messages[n].ToolResult?
  {
    Ascending(output, n) && (messages[n].toolCallId == "" || HolderIs(output, messages, n, messages[n].toolCallId))
  }

  lemma {:induction false} AttachedResult(output: seq<ChatMessage>, after: seq<ChatMessage>, messages: seq<Message>,
                                          n: nat,
                                          i: nat, callId: string)
    requires 0 < n <= |messages| && callId != "" && messages[n - 1].ToolResult? && Ready(output, messages, n - 1)
    requires after == Attach(output, n - 1, messages[n - 1].toolCallId, messages[n - 1].result)
    requires ResultIs(output, messages, n - 1, i, callId)
    ensures ResultIs(after, messages, n, i, callId)
  {
    var id, result := messages[n - 1].toolCallId, messages[n - 1].result;
    var home := Home(messages, n - 1);
    AttachResults(output, n - 1, id, result, i, callId);
    LastResultStep(messages, n, i, callId);
    assert home == if id != "" && LastHolding(output, id) >= 0 then output[LastHolding(output, id)].id else n - 1;
  }

  lemma {:induction false} HydratedStep(messages: seq<Message>, n: nat, i: nat, callId: string)
    requires 0 < n <= |messages| && callId != "" && !messages[n - 1].ToolResult?
    requires ResultIs(Hydrated(messages, n - 1), messages, n - 1, i, callId)
    ensures ResultIs(Hydrated(messages, n), messages, n, i, callId)
  {
    var output := Hydrated(messages, n - 1);
    match messages[n - 1]
    case Assistant(calls) =>
      PartsNamed(calls, callId);
      PartsUnanswered(calls);
      AddedResult(output, messages, n, PartsOf(calls), i, callId);
    case Custom(display) =>
      if display { AddedResult(output, messages, n, [], i, callId); }
    case _ => AddedResult(output, messages, n, [], i, callId);
  }

  lemma {:induction false} HydratedReady(messages: seq<Message>, n: nat)
    requires n < |messages| && messages[n].ToolResult?
    ensures Ready(Hydrated(messages, n), messages, n)
  {
    HydratedAscends(messages, n);
    if messages[n].toolCallId != "" { HydratedHolders(messages, n, messages[n].toolCallId); }
  }

  // At every point the transcript shows, in each message and for each call it carries, the last
  // result that belongs there.
  lemma {:induction false} HydratedResults(messages: seq<Message>, n: nat, i: nat, callId: string)
    requires n <= |messages| && callId != ""
    ensures ResultIs(Hydrated(messages, n), messages, n, i, callId)
  {
    if n > 0 {
      HydratedResults(messages, n - 1, i, callId);
      if messages[n - 1].ToolResult? {
        HydratedReady(messages, n - 1);
        AttachedResult(Hydrated(messages, n - 1), Hydrated(messages, n), messages, n, i, callId);
      } else {
        HydratedStep(messages, n, i, callId);
      }
    }
  }

  lemma {:induction false} AddedResult(output: seq<ChatMessage>, messages: seq<Message>, n: nat, parts: seq<Part>,
                                       i: nat, callId: string)
    requires 0 < n <= |messages| && callId != "" && !messages[n - 1].ToolResult?
    requires ResultIs(output, messages, n - 1, i, callId)
    requires Carries(messages, n - 1, callId) <==> FindPart(parts, callId) >= 0
    requires forall p :: 0 <= p < |parts| ==> parts[p].result == None
    ensures ResultIs(output + [ChatMessage(n - 1, parts)], messages, n, i, callId)
  {
    NoResultBeforeItself(messages, n - 1, n - 1, callId);
    ResultSnoc(output, ChatMessage(n - 1, parts), i, callId);
  }
}
