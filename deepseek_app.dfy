/** The string logic of the DeepSeek-R1 chat front end: removing the think tags from
    an assistant reply, cutting the thinking span out of a stored reply for display,
    splitting the streamed reply into its thinking and response parts, and the chat
    history the replies are stored in. The rendering calls are not modelled. */
module DeepseekApp {
  import opened Outcomes
  import opened Strings
  import opened Seqs

  const ThinkOpen: string := "<think>"
  const ThinkClose: string := "</think>"
  const EmptyThought: string := ThinkOpen + "\n\n" + ThinkClose

  /** `format_assistant_content`: the empty thought goes first, then every opening tag,
      then every closing tag. */
  function FormatAssistantContent(content: string): (r: string)
    ensures |r| <= |content|
    ensures !Contains(content, ThinkOpen) && !Contains(content, ThinkClose) ==> r == content
  {
    var once := Replace(content, EmptyThought, "");
    var twice := Replace(once, ThinkOpen, "");
    ReplaceByEmptyShrinks(content, EmptyThought);
    ReplaceByEmptyShrinks(once, ThinkOpen);
    ReplaceByEmptyShrinks(twice, ThinkClose);
    TaglessUnchanged(content);
    Replace(twice, ThinkClose, "")
  }

  /** An empty thought formats to nothing. */
  lemma EmptyThoughtVanishes()
    ensures FormatAssistantContent(EmptyThought) == ""
  {
    assert EmptyThought[..|EmptyThought|] == EmptyThought;
    assert EmptyThought[|EmptyThought|..] == [];
    assert Replace(EmptyThought, EmptyThought, "") == "";
  }

  /** Text without tags goes through the three replacements unchanged. */
  lemma TaglessUnchanged(content: string)
    ensures !Contains(content, ThinkOpen) && !Contains(content, ThinkClose) ==>
      Replace(Replace(Replace(content, EmptyThought, ""), ThinkOpen, ""), ThinkClose, "") == content
  {
    if !Contains(content, ThinkOpen) && !Contains(content, ThinkClose) {
      TaglessReplaced(content);
    }
  }

  lemma TaglessReplaced(content: string)
    requires !Contains(content, ThinkOpen) && !Contains(content, ThinkClose)
    ensures Replace(Replace(Replace(content, EmptyThought, ""), ThinkOpen, ""), ThinkClose, "") == content
  {
    assert EmptyThought[..|ThinkOpen|] == ThinkOpen;
    if Contains(content, EmptyThought) {
      ContainsPrefix(content, EmptyThought, ThinkOpen);
    }
    ReplaceAbsent(content, EmptyThought, "");
    ReplaceAbsent(content, ThinkOpen, "");
    ReplaceAbsent(content, ThinkClose, "");
  }

  /** `content[start..end]` is a match of `<think>(.*?)</think>` with DOTALL: an
      opening tag at `start` and a closing tag ending at `end`, after the opening one. */
  predicate IsThinkSpan(content: string, start: int, end: int) {
    && 0 <= start
    && start + |ThinkOpen| + |ThinkClose| <= end <= |content|
    && content[start..start + |ThinkOpen|] == ThinkOpen
    && content[end - |ThinkClose|..end] == ThinkClose
  }

  datatype Span = Span(start: nat, end: nat)

  /** `re.search(r"<think>(.*?)</think>", content, re.DOTALL)`: a match when there is
      one, None when nothing matches. */
  function ThinkSearch(content: string): (r: Option<Span>)
    ensures r.Some? ==> IsThinkSpan(content, r.value.start, r.value.end)
    ensures r.None? ==> forall i, e :: !IsThinkSpan(content, i, e)
  {
    match Find(content, ThinkOpen)
    case None =>
      NoOpenNoSpan(content);
      None
    case Some(i) =>
      match Find(content[i + |ThinkOpen|..], ThinkClose)
      case None =>
        NoCloseNoSpan(content, i);
        None
      case Some(k) =>
        SpanFound(content, i, k);
        Some(Span(i, i + |ThinkOpen| + k + |ThinkClose|))
  }

  /** The match found is the one `re.search` reports: the leftmost, and at that
      position the shortest, since `.*?` is lazy. */
  lemma ThinkSearchLeftmostShortest(content: string)
    requires ThinkSearch(content).Some?
    ensures var sp := ThinkSearch(content).value;
      && (forall i, e :: 0 <= i < sp.start ==> !IsThinkSpan(content, i, e))
      && (forall e :: e < sp.end ==> !IsThinkSpan(content, sp.start, e))
  {
    var i := Find(content, ThinkOpen).value;
    var k := Find(content[i + |ThinkOpen|..], ThinkClose).value;
    NoEarlierSpan(content, i);
    NoShorterSpan(content, i, k);
  }

  lemma NoOpenNoSpan(content: string)
    requires Find(content, ThinkOpen).None?
    ensures forall i, e :: !IsThinkSpan(content, i, e)
  {
    forall i, e
      ensures !IsThinkSpan(content, i, e)
    {
      if 0 <= i && i + |ThinkOpen| <= |content| {
        assert content[i..][..|ThinkOpen|] == content[i..i + |ThinkOpen|];
      }
    }
  }

  /** An opening tag at `i` with no closing tag after it: no match starts at `i` or
      later, and none starts earlier because `i` is the first opening tag. */
  lemma NoCloseNoSpan(content: string, i: nat)
    requires Find(content, ThinkOpen) == Some(i)
    requires Find(content[i + |ThinkOpen|..], ThinkClose).None?
    ensures forall j, e :: !IsThinkSpan(content, j, e)
  {
    var rest := content[i + |ThinkOpen|..];
    forall j, e
      ensures !IsThinkSpan(content, j, e)
    {
      if 0 <= j && j + |ThinkOpen| + |ThinkClose| <= e <= |content| {
        assert content[j..][..|ThinkOpen|] == content[j..j + |ThinkOpen|];
        if i <= j {
          var c := e - |ThinkClose| - (i + |ThinkOpen|);
          assert rest[c..][..|ThinkClose|] == content[e - |ThinkClose|..e];
        }
      }
    }
  }

  lemma SpanFound(content: string, i: nat, k: nat)
    requires Find(content, ThinkOpen) == Some(i)
    requires Find(content[i + |ThinkOpen|..], ThinkClose) == Some(k)
    ensures IsThinkSpan(content, i, i + |ThinkOpen| + k + |ThinkClose|)
  {
    var rest := content[i + |ThinkOpen|..];
    var end := i + |ThinkOpen| + k + |ThinkClose|;
    SuffixSlice(content, i + |ThinkOpen|, k, k + |ThinkClose|);
  }

  /** No match starts before the first opening tag. */
  lemma NoEarlierSpan(content: string, i: nat)
    requires Find(content, ThinkOpen) == Some(i)
    ensures forall j, e :: 0 <= j < i ==> !IsThinkSpan(content, j, e)
  {
    forall j, e | 0 <= j < i
      ensures !IsThinkSpan(content, j, e)
    {
      if j + |ThinkOpen| <= |content| {
        assert content[j..][..|ThinkOpen|] == content[j..j + |ThinkOpen|];
      }
    }
  }

  /** No match from `i` ends before the first closing tag after the opening one. */
  lemma NoShorterSpan(content: string, i: nat, k: nat)
    requires i + |ThinkOpen| <= |content|
    requires Find(content[i + |ThinkOpen|..], ThinkClose) == Some(k)
    ensures forall e :: e < i + |ThinkOpen| + k + |ThinkClose| ==> !IsThinkSpan(content, i, e)
  {
    var rest := content[i + |ThinkOpen|..];
    forall e | e < i + |ThinkOpen| + k + |ThinkClose|
      ensures !IsThinkSpan(content, i, e)
    {
      if i + |ThinkOpen| + |ThinkClose| <= e <= |content| {
        var c := e - |ThinkClose| - (i + |ThinkOpen|);
        assert rest[c..][..|ThinkClose|] == content[e - |ThinkClose|..e];
      }
    }
  }

  /** What `display_chat_history` shows of one message: the thinking text, in an
      expander when it is not empty, and the content. */
  datatype Shown = Shown(thinking: string, content: string)

  /** The loop body of `display_chat_history` as written: for an assistant message the
      result of `re.search` is used without a check, so a reply without a complete
      think span raises AttributeError (`'NoneType' object has no attribute 'group'`).
      Otherwise every copy of the span is deleted from the content, and the span itself,
      formatted, is the thinking text. */
  function ShowMessageAsWritten(role: string, content: string): (r: Result<Shown>)
    ensures role != "assistant" ==> r == Ok(Shown("", content))
    ensures role == "assistant" ==> (r.Err? <==> forall i, e :: !IsThinkSpan(content, i, e))
    ensures r.Err? ==> r.error == AttributeError("group")
  {
    if role != "assistant" then Ok(Shown("", content))
    else match ThinkSearch(content)
      case None => Err(AttributeError("group"))
      case Some(sp) =>
        var think := content[sp.start..sp.end];
        Ok(Shown(FormatAssistantContent(think), Replace(content, think, "")))
  }

  /** An assistant reply without an opening tag, as a reply whose template leaves the
      tag out is stored, makes the history display fail. */
  lemma UntaggedReplyFails(content: string)
    requires !Contains(content, ThinkOpen)
    ensures ShowMessageAsWritten("assistant", content) == Err(AttributeError("group"))
  {
    NoOpenNoSpan(content);
  }

  lemma PlainReplyFails()
    ensures ShowMessageAsWritten("assistant", "hello") == Err(AttributeError("group"))
  {
    var reply := "hello";
    if Contains(reply, ThinkOpen) {
      ContainsShorter(reply, ThinkOpen);
    }
    UntaggedReplyFails(reply);
  }

  /** The display with the missing check added: a reply without a think span is shown
      as it is, with no thinking text. Wherever the code as written shows a message,
      this shows the same, and it never shows more text than the message holds. */
  function ShowMessage(role: string, content: string): (r: Shown)
    ensures ShowMessageAsWritten(role, content).Ok? ==> r == ShowMessageAsWritten(role, content).value
    ensures role != "assistant" || (forall i, e :: !IsThinkSpan(content, i, e)) ==> r == Shown("", content)
    ensures |r.thinking| + |r.content| <= |content|
  {
    if role != "assistant" then Shown("", content)
    else match ThinkSearch(content)
      case None => Shown("", content)
      case Some(sp) =>
        var think := content[sp.start..sp.end];
        ContainsAt(content, think, sp.start);
        ReplaceRemovesOne(content, think);
        Shown(FormatAssistantContent(think), Replace(content, think, ""))
  }

  /** `chunk.choices[0].delta.content or ""` */
  function ChunkText(delta: Option<string>): string {
    if delta.Some? then delta.value else ""
  }

  function Texts(deltas: seq<Option<string>>): (r: seq<string>)
    ensures |r| == |deltas| && forall k :: 0 <= k < |deltas| ==> r[k] == ChunkText(deltas[k])
  {
    MapAll(ChunkText, deltas)
  }

  /** The chunk that ends the thinking phase: it closes a thought without opening one. */
  predicate EndsThinking(text: string) {
    !Contains(text, ThinkOpen) && Contains(text, ThinkClose)
  }

  /** How many chunks the thinking phase consumes: up to and including the first that
      ends it, or all of them. */
  function ThinkingEnd(texts: seq<string>): (n: nat)
    ensures n <= |texts| && (texts != [] ==> 0 < n)
    ensures forall k :: 0 <= k < n - 1 ==> !EndsThinking(texts[k])
    ensures n < |texts| ==> EndsThinking(texts[n - 1])
    ensures (forall k :: 0 <= k < |texts| ==> !EndsThinking(texts[k])) ==> n == |texts|
    decreases |texts|
  {
    if texts == [] then 0
    else if EndsThinking(texts[0]) then 1
    else 1 + ThinkingEnd(texts[1..])
  }

  /** Flatten of a sequence with one more element at its end. */
  lemma FlattenSnoc(texts: seq<string>, text: string)
    ensures Flatten(texts + [text]) == Flatten(texts) + text
  {
    FlattenAppend(texts, [text]);
    assert [text][1..] == [];
  }

  /** Extending a slice by one element extends its concatenation by that element. */
  lemma FlattenSliceSnoc(texts: seq<string>, lo: nat, hi: nat)
    requires lo <= hi < |texts|
    ensures Flatten(texts[lo..hi + 1]) == Flatten(texts[lo..hi]) + texts[hi]
  {
    assert texts[lo..hi + 1] == texts[lo..hi] + [texts[hi]];
    FlattenSnoc(texts[lo..hi], texts[hi]);
  }

  /** The thinking phase ends right after the first chunk that ends it. */
  lemma ThinkingEndAt(texts: seq<string>, k: nat)
    requires k < |texts| && EndsThinking(texts[k])
    requires forall j :: 0 <= j < k ==> !EndsThinking(texts[j])
    ensures ThinkingEnd(texts) == k + 1
  {
  }

  /** One iteration of the thinking loop. */
  lemma ThinkingStep(texts: seq<string>, i: nat)
    requires i < |texts|
    ensures Flatten(texts[..i + 1]) == Flatten(texts[..i]) + texts[i]
    ensures ThinkingEnd(texts[i..]) == if EndsThinking(texts[i]) then 1 else 1 + ThinkingEnd(texts[i + 1..])
  {
    FlattenSliceSnoc(texts, 0, i);
    assert texts[0..i + 1] == texts[..i + 1] && texts[0..i] == texts[..i];
    assert texts[i..][0] == texts[i] && texts[i..][1..] == texts[i + 1..];
  }

  /** The thinking loop (lines 106-121 of `main`): it reads chunks up to and including
      the one that ends the thinking phase, and leaves the stream at the next chunk. */
  method ThinkingPhase(deltas: seq<Option<string>>) returns (thinking: string, next: nat)
    ensures next == ThinkingEnd(Texts(deltas))
    ensures thinking == Flatten(Texts(deltas)[..next])
  {
    ghost var texts := Texts(deltas);
    thinking := "";
    var i := 0;
    var done := false;
    while i < |deltas| && !done
      invariant 0 <= i <= |deltas|
      invariant thinking == Flatten(texts[..i])
      invariant !done ==> ThinkingEnd(texts) == i + ThinkingEnd(texts[i..])
      invariant done ==> ThinkingEnd(texts) == i
      decreases |deltas| - i, !done
    {
      var content := ChunkText(deltas[i]);
      ThinkingStep(texts, i);
      thinking := thinking + content;
      i := i + 1;
      if Contains(content, ThinkOpen) {
        continue;
      }
      if Contains(content, ThinkClose) {
        done := true;
      }
    }
    assert !done ==> texts[i..] == [];
    next := i;
  }

  /** The response loop (lines 123-129 of `main`): the rest of the same stream. */
  method ResponsePhase(deltas: seq<Option<string>>, from: nat) returns (response: string)
    requires from <= |deltas|
    ensures response == Flatten(Texts(deltas)[from..])
  {
    ghost var texts := Texts(deltas);
    response := "";
    var i := from;
    while i < |deltas|
      invariant from <= i <= |deltas|
      invariant response == Flatten(texts[from..i])
    {
      var content := ChunkText(deltas[i]);
      FlattenSliceSnoc(texts, from, i);
      response := response + content;
      i := i + 1;
    }
    assert texts[from..|deltas|] == texts[from..];
  }

  /** Both loops over one stream: the thinking part and the response part. */
  method SplitStream(deltas: seq<Option<string>>) returns (thinking: string, response: string)
    ensures var texts := Texts(deltas);
      && thinking == Flatten(texts[..ThinkingEnd(texts)])
      && response == Flatten(texts[ThinkingEnd(texts)..])
  {
    var next;
    thinking, next := ThinkingPhase(deltas);
    response := ResponsePhase(deltas, next);
  }

  /** The stored reply is every chunk's text, in stream order. */
  lemma SplitKeepsEverything(texts: seq<string>)
    ensures Flatten(texts[..ThinkingEnd(texts)]) + Flatten(texts[ThinkingEnd(texts)..]) == Flatten(texts)
  {
    var n := ThinkingEnd(texts);
    assert texts[..n] + texts[n..] == texts;
    FlattenAppend(texts[..n], texts[n..]);
  }

  /** The thinking part ends with the chunk that closed the thought, when there is one;
      every later chunk is in the response. */
  lemma SplitAtClosingChunk(texts: seq<string>, k: nat)
    requires k < |texts| && EndsThinking(texts[k])
    requires forall j :: 0 <= j < k ==> !EndsThinking(texts[j])
    ensures Flatten(texts[..ThinkingEnd(texts)]) == Flatten(texts[..k]) + texts[k]
    ensures Flatten(texts[ThinkingEnd(texts)..]) == Flatten(texts[k + 1..])
  {
    ThinkingEndAt(texts, k);
    FlattenSliceSnoc(texts, 0, k);
    assert texts[0..k + 1] == texts[..k + 1] && texts[0..k] == texts[..k];
  }

  datatype Message = Message(role: string, content: string)

  class ChatSession {
    /** `st.session_state.messages` */
    var messages: seq<Message>

    /** `initialize_session_state` on a fresh session. */
    constructor ()
      ensures messages == []
    {
      messages := [];
    }

    /** The "Clear Chat History" button. */
    method Clear()
      modifies this
      ensures messages == []
    {
      messages := [];
    }

    /** A submitted prompt: the user message goes in first, then the reply, stored as
        the thinking part followed by the response part. An empty prompt does nothing. */
    method Submit(prompt: string, deltas: seq<Option<string>>)
      modifies this
      ensures prompt == "" ==> messages == old(messages)
      ensures prompt != "" ==>
        messages == old(messages) + [Message("user", prompt), Message("assistant", Flatten(Texts(deltas)))]
    {
      if prompt != "" {
        messages := messages + [Message("user", prompt)];
        var thinking, response := SplitStream(deltas);
        SplitKeepsEverything(Texts(deltas));
        messages := messages + [Message("assistant", thinking + response)];
      }
    }
  }

  /** A reply whose stream closes a thought that an earlier chunk opened is shown with
      that thought apart from the answer: the thinking text is the formatted span, and
      the content is the answer with every copy of the span deleted, which is the answer
      itself when it does not repeat the span. */
  lemma ShowsStoredThought(thought: string, answer: string)
    requires !Contains(thought, ThinkClose)
    ensures var shown := ShowMessage("assistant", ThinkOpen + thought + ThinkClose + answer);
      && shown.thinking == FormatAssistantContent(ThinkOpen + thought + ThinkClose)
      && shown.content == Replace(answer, ThinkOpen + thought + ThinkClose, "")
      && (!Contains(answer, ThinkOpen + thought + ThinkClose) ==> shown.content == answer)
  {
    var span := ThinkOpen + thought + ThinkClose;
    StoredSpan(thought, answer);
    ReplaceLeading(span, answer);
    if !Contains(answer, span) {
      ReplaceAbsent(answer, span, "");
    }
  }

  /** Deleting a span from a text that starts with it deletes that copy and goes on
      with the rest. */
  lemma ReplaceLeading(span: string, rest: string)
    requires |span| > 0
    ensures Replace(span + rest, span, "") == Replace(rest, span, "")
  {
    var s := span + rest;
    assert s[..|span|] == span && s[|span|..] == rest;
  }

  /** The span of such a reply is the thought with its tags. */
  lemma StoredSpan(thought: string, answer: string)
    requires !Contains(thought, ThinkClose)
    ensures var content := ThinkOpen + thought + ThinkClose + answer;
      var end := |ThinkOpen| + |thought| + |ThinkClose|;
      && ThinkSearch(content) == Some(Span(0, end))
      && content[0..end] == ThinkOpen + thought + ThinkClose
  {
    var content := ThinkOpen + thought + ThinkClose + answer;
    var tail := thought + ThinkClose + answer;
    AppendAssoc(ThinkOpen, thought, ThinkClose);
    AppendAssoc(ThinkOpen, thought + ThinkClose, answer);
    ConcatSplit(ThinkOpen, tail);
    FirstClose(thought, answer);
  }

  lemma FirstClose(thought: string, answer: string)
    requires !Contains(thought, ThinkClose)
    ensures Find(thought + ThinkClose + answer, ThinkClose) == Some(|thought|)
  {
    var s := thought + ThinkClose + answer;
    var t := |thought|;
    assert s[t..][..|ThinkClose|] == ThinkClose;
    var j := Find(s, ThinkClose).value;
    if j + |ThinkClose| <= t {
      assert thought[j..][..|ThinkClose|] == s[j..j + |ThinkClose|];
      ContainsAt(thought, ThinkClose, j);
    } else if j < t {
      CloseTagHasOneOpening(s, j, t);
    }
  }

  /** Inside a closing tag only its first character is `<`, so two closing tags never
      overlap. */
  lemma CloseTagHasOneOpening(s: string, j: nat, t: nat)
    requires j < t < j + |ThinkClose| <= |s| && s[j..j + |ThinkClose|] == ThinkClose
    ensures s[t] != '<'
  {
    assert s[t] == s[j..j + |ThinkClose|][t - j];
  }
}
