/** The think tags that the Ollama provider writes into its stream
    (_shared/llm/providers/ollama/ollama_llm.py), and the split of the collected text by the
    streaming task (backend/celery_task/workers/tasks/stream_utils/text_utils.py). */
module ThinkTags {
  import opened Options
  import opened Strings
  import opened Whitespace

  /** A line of the response: blank, not JSON, or a record. An absent field is "". */
  datatype Line = Empty | Malformed | Record(done: bool, thinking: string, content: string)

  /** What a chunk adds to the text: a token, after a tag if the phase changes. */
  datatype Chunk = Open(text: string) | Close(text: string) | Plain(text: string)

  datatype Token = Token(thinking: bool, text: string)

  const OPEN := "<think>"
  const CLOSE := "</think>"
  const LONG_OPEN := "<thinking>"
  const LONG_CLOSE := "</thinking>"

  function Text(chunk: Chunk): string {
    match chunk
    case Open(text) => OPEN + text
    case Close(text) => CLOSE + text
    case Plain(text) => text
  }

  function Texts(chunks: seq<Chunk>): seq<string> {
    seq(|chunks|, i requires 0 <= i < |chunks| => Text(chunks[i]))
  }

  /** What a record that is not done contributes: thinking wins over content. */
  function Chosen(line: Line): Option<Token> {
    if !line.Record? then None
    else if line.thinking != "" then Some(Token(true, line.thinking))
    else if line.content != "" then Some(Token(false, line.content))
    else None
  }

  function Tagged(token: Token, open: bool): Chunk {
    if token.thinking == open then Plain(token.text)
    else if open then Close(token.text)
    else Open(token.text)
  }

  predicate Done(line: Line) {
    line.Record? && line.done
  }

  /** The chunks still to come, when the thinking phase is open or not. */
  function Emit(lines: seq<Line>, open: bool): seq<Chunk> {
    if lines == [] then []
    else if Done(lines[0]) then (if open then [Close("")] else [])
    else
      var chosen := Chosen(lines[0]);
      if chosen.None? then Emit(lines[1..], open)
      else [Tagged(chosen.value, open)] + Emit(lines[1..], chosen.value.thinking)
  }

  /** What is to come after the lines before `i`. */
  function Rest(lines: seq<Line>, i: nat, open: bool): seq<string>
    requires i <= |lines|
  {
    Texts(Emit(lines[i..], open))
  }

  lemma EmitStep(said: seq<string>, lines: seq<Line>, i: nat, open: bool)
    requires i < |lines|
    ensures said + Rest(lines, i, open) ==
      if Done(lines[i]) then (if open then said + [CLOSE] else said)
      else if Chosen(lines[i]).None? then said + Rest(lines, i + 1, open)
      else said + [Text(Tagged(Chosen(lines[i]).value, open))] + Rest(lines, i + 1, Chosen(lines[i]).value.thinking)
  {
    assert lines[i..][1..] == lines[i + 1..];
    var chosen := Chosen(lines[i]);
    if Done(lines[i]) {
      assert CLOSE + "" == CLOSE;
      assert Rest(lines, i, open) == if open then [CLOSE] else [];
    } else if chosen.Some? {
      var rest := Emit(lines[i + 1..], chosen.value.thinking);
      assert Texts([Tagged(chosen.value, open)] + rest) == [Text(Tagged(chosen.value, open))] + Texts(rest);
    }
  }

  /** The loop of `_astream`. */
  method AStream(lines: seq<Line>) returns (chunks: seq<string>)
    ensures chunks == Texts(Emit(lines, false))
  {
    chunks := [];
    var inThinking := false;
    assert Rest(lines, 0, false) == Texts(Emit(lines, false)) by { assert lines[0..] == lines; }
    for i := 0 to |lines|
      invariant chunks + Rest(lines, i, inThinking) == Texts(Emit(lines, false))
    {
      EmitStep(chunks, lines, i, inThinking);
      hide Rest, Emit, Texts;
      if !lines[i].Record? {
        continue;
      }
      var Record(done, thinking, content) := lines[i];
      if done {
        if inThinking {
          chunks := chunks + [CLOSE];
        }
        return;
      }
      if thinking != "" {
        if !inThinking {
          inThinking := true;
          thinking := OPEN + thinking;
        }
        chunks := chunks + [thinking];
      } else if content != "" {
        if inThinking {
          inThinking := false;
          content := CLOSE + content;
        }
        chunks := chunks + [content];
      }
    }
    assert Rest(lines, |lines|, inThinking) == [];
  }

  // ----- What the stream says

  /** The tokens of the records before the first that is done. */
  function Selected(lines: seq<Line>): (tokens: seq<Token>)
    ensures forall token | token in tokens :: token.text != ""
  {
    if lines == [] || Done(lines[0]) then []
    else
      var chosen := Chosen(lines[0]);
      if chosen.None? then Selected(lines[1..]) else [chosen.value] + Selected(lines[1..])
  }

  /** The thinking fields of the records before the first that is done, one after the other. */
  function ThinkingFields(lines: seq<Line>): string {
    if lines == [] || (lines[0].Record? && lines[0].done) then ""
    else (if lines[0].Record? then lines[0].thinking else "") + ThinkingFields(lines[1..])
  }

  /** Their content fields, of the records without thinking. */
  function ContentFields(lines: seq<Line>): string {
    if lines == [] || (lines[0].Record? && lines[0].done) then ""
    else (if lines[0].Record? && lines[0].thinking == "" then lines[0].content else "") + ContentFields(lines[1..])
  }

  /** The tokens say what the fields say: all thinking before a done line, and the content of the
      records that have no thinking. */
  lemma {:induction false} SelectedSaysFields(lines: seq<Line>)
    ensures Said(Selected(lines), true) == ThinkingFields(lines)
    ensures Said(Selected(lines), false) == ContentFields(lines)
  {
    if lines != [] && !Done(lines[0]) {
      SelectedSaysFields(lines[1..]);
      var rest := Selected(lines[1..]);
      if Chosen(lines[0]).Some? {
        assert ([Chosen(lines[0]).value] + rest)[1..] == rest;
      }
      assert "" + Said(rest, true) == Said(rest, true) && "" + Said(rest, false) == Said(rest, false);
    }
  }

  predicate HasDone(lines: seq<Line>) {
    exists line | line in lines :: Done(line)
  }

  /** Reading the chunks back: no tag opens inside a thinking phase or closes outside one. */
  function Read(chunks: seq<Chunk>, open: bool): Option<(seq<Token>, bool)> {
    if chunks == [] then Some(([], open))
    else if (chunks[0].Open? && open) || (chunks[0].Close? && !open) then None
    else
      var inside := chunks[0].Open? || (chunks[0].Plain? && open);
      var rest := Read(chunks[1..], inside);
      if rest.None? then None
      else Some(((if chunks[0].text == "" then [] else [Token(inside, chunks[0].text)]) + rest.value.0, rest.value.1))
  }

  function LastPhase(tokens: seq<Token>, open: bool): bool {
    if tokens == [] then open else tokens[|tokens| - 1].thinking
  }

  /** The tags alternate, every token is on its side of them, no token is lost or added, and
      the stream ends closed exactly if a done line came or the last token is no thought. */
  lemma {:induction false} ReadRecoversSelected(lines: seq<Line>, open: bool)
    ensures Read(Emit(lines, open), open) ==
            Some((Selected(lines), !HasDone(lines) && LastPhase(Selected(lines), open)))
  {
    if lines != [] {
      var rest, chosen := lines[1..], Chosen(lines[0]);
      HasDoneStep(lines);
      hide Read, HasDone, LastPhase;
      if Done(lines[0]) {
        ReadNothing(open);
        ReadLastTag([Close("")]);
      } else if chosen.Some? {
        ReadRecoversSelected(rest, chosen.value.thinking);
        ReadToken(chosen.value, Emit(rest, chosen.value.thinking), open);
        LastPhaseCons(chosen.value, Selected(rest), open);
      } else {
        ReadRecoversSelected(rest, open);
      }
    }
  }

  lemma ReadToken(token: Token, chunks: seq<Chunk>, open: bool)
    requires token.text != ""
    ensures var rest := Read(chunks, token.thinking);
      Read([Tagged(token, open)] + chunks, open) ==
        if rest.None? then None else Some(([token] + rest.value.0, rest.value.1))
  {
    assert ([Tagged(token, open)] + chunks)[1..] == chunks;
  }

  lemma LastPhaseCons(token: Token, tokens: seq<Token>, open: bool)
    ensures LastPhase([token] + tokens, open) == LastPhase(tokens, token.thinking)
  {
  }

  lemma HasDoneStep(lines: seq<Line>)
    requires lines != []
    ensures HasDone(lines) <==> Done(lines[0]) || HasDone(lines[1..])
  {
    assert forall line :: line in lines <==> line == lines[0] || line in lines[1..];
  }

  lemma ReadNothing(open: bool)
    ensures Read([], open) == Some(([], open)) && LastPhase([], open) == open
  {
  }

  lemma ReadLastTag(chunks: seq<Chunk>)
    requires |chunks| == 1 && chunks[0].Close? && chunks[0].text == ""
    ensures Read(chunks, true) == Some(([], false))
  {
    var none: seq<Token> := [];
    assert chunks[1..] == [] && none + none == none;
    assert Read(chunks[1..], false) == Some((none, false));
  }

  // ----- The text as the streaming task splits it

  function Find(text: string, tag: string): Option<nat> {
    if |text| < |tag| then None
    else if text[..|tag|] == tag then Some(0)
    else if text == "" then None
    else
      var rest := Find(text[1..], tag);
      if rest.Some? then Some(rest.value + 1) else None
  }

  /** `str.partition`: what is before the first occurrence and what is after it. */
  function Partition(text: string, tag: string): (parts: Option<(string, string)>)
    ensures parts.Some? && tag != "" ==> |parts.value.1| < |text|
  {
    FindInside(text, tag);
    var at := Find(text, tag);
    if at.None? then None else Some((text[..at.value], text[at.value + |tag|..]))
  }

  lemma {:induction false} FindInside(text: string, tag: string)
    ensures Find(text, tag).Some? ==> Find(text, tag).value + |tag| <= |text|
  {
    if |text| >= |tag| && text[..|tag|] != tag && text != "" {
      FindInside(text[1..], tag);
    }
  }

  function NoneIfEmpty(s: string): Option<string> {
    if s == "" then None else Some(s)
  }

  function ExtractTagged(text: string, open: string, close: string): Option<(Option<string>, string)> {
    var begun := Partition(text, open);
    if begun.None? then None
    else
      var ended := Partition(begun.value.1, close);
      if ended.Some? then Some((NoneIfEmpty(Strip(ended.value.0)), Strip(ended.value.1)))
      else Some((NoneIfEmpty(Strip(begun.value.1)), ""))
  }

  /** `extract_thinking_answer`: the thinking, if any, and the answer. */
  function Extract(text: string): (Option<string>, string) {
    var stripped := Strip(text);
    var short := ExtractTagged(stripped, OPEN, CLOSE);
    if short.Some? then short.value
    else
      var long := ExtractTagged(stripped, LONG_OPEN, LONG_CLOSE);
      if long.Some? then long.value else (None, stripped)
  }

  /** The text of one phase's tokens, in order. */
  function Said(tokens: seq<Token>, thinking: bool): string {
    if tokens == [] then ""
    else (if tokens[0].thinking == thinking then tokens[0].text else "") + Said(tokens[1..], thinking)
  }

  /** The tokens before the first one of this phase. */
  function Until(tokens: seq<Token>, thinking: bool): (before: seq<Token>)
    ensures forall token | token in before :: token.thinking != thinking && token in tokens
  {
    if tokens == [] || tokens[0].thinking == thinking then [] else [tokens[0]] + Until(tokens[1..], thinking)
  }

  /** The tokens from the first one of this phase on. */
  function From(tokens: seq<Token>, thinking: bool): (rest: seq<Token>)
    ensures rest != [] ==> rest[0].thinking == thinking
    ensures forall token | token in rest :: token in tokens
    ensures rest == [] ==> forall token | token in tokens :: token.thinking != thinking
    ensures |rest| <= |tokens| && (tokens != [] && tokens[0].thinking != thinking ==> |rest| < |tokens|)
  {
    if tokens == [] || tokens[0].thinking == thinking then tokens else From(tokens[1..], thinking)
  }

  /** No token holds the first character of a tag. */
  predicate TagFree(tokens: seq<Token>) {
    forall token | token in tokens :: '<' !in token.text
  }

  /** The text that these tokens make of a stream. */
  function Written(tokens: seq<Token>, open: bool, done: bool): string {
    if tokens == [] then (if open && done then CLOSE else "")
    else Text(Tagged(tokens[0], open)) + Written(tokens[1..], tokens[0].thinking, done)
  }

  lemma {:induction false} JoinTexts(chunk: Chunk, chunks: seq<Chunk>)
    ensures Concat(Texts([chunk] + chunks)) == Text(chunk) + Concat(Texts(chunks))
  {
    assert Texts([chunk] + chunks)[1..] == Texts(chunks);
  }

  lemma {:induction false} StreamText(lines: seq<Line>, open: bool)
    ensures Concat(Texts(Emit(lines, open))) == Written(Selected(lines), open, HasDone(lines))
  {
    if lines != [] {
      var rest, chosen := lines[1..], Chosen(lines[0]);
      HasDoneStep(lines);
      if Done(lines[0]) {
        JoinTexts(Close(""), []);
        assert Texts([]) == [];
      } else if chosen.Some? {
        StreamText(rest, chosen.value.thinking);
        JoinTexts(Tagged(chosen.value, open), Emit(rest, chosen.value.thinking));
        assert ([chosen.value] + Selected(rest))[1..] == Selected(rest);
      } else {
        StreamText(rest, open);
      }
    }
  }

  lemma SaidCons(token: Token, tokens: seq<Token>, thinking: bool)
    ensures Said([token] + tokens, thinking) == (if token.thinking == thinking then token.text else "") + Said(tokens, thinking)
  {
    assert ([token] + tokens)[1..] == tokens;
  }

  lemma {:induction false} WrittenSplit(tokens: seq<Token>, open: bool, done: bool)
    ensures Written(tokens, open, done) ==
            Said(Until(tokens, !open), open) + Written(From(tokens, !open), open, done)
  {
    if tokens != [] && tokens[0].thinking == open {
      var rest := tokens[1..];
      WrittenSplit(rest, open, done);
      SaidCons(tokens[0], Until(rest, !open), open);
      Associative(tokens[0].text, Said(Until(rest, !open), open), Written(From(rest, !open), open, done));
    }
  }

  lemma {:induction false} SaidSplit(tokens: seq<Token>, at: bool, thinking: bool)
    ensures Said(tokens, thinking) == Said(Until(tokens, at), thinking) + Said(From(tokens, at), thinking)
  {
    if tokens != [] && tokens[0].thinking != at {
      var rest, text := tokens[1..], if tokens[0].thinking == thinking then tokens[0].text else "";
      SaidSplit(rest, at, thinking);
      SaidCons(tokens[0], Until(rest, at), thinking);
      Associative(text, Said(Until(rest, at), thinking), Said(From(rest, at), thinking));
    }
  }

  lemma {:induction false} SaidTagFree(tokens: seq<Token>, thinking: bool)
    requires TagFree(tokens)
    ensures '<' !in Said(tokens, thinking)
  {
    if tokens != [] {
      SaidTagFree(tokens[1..], thinking);
    }
  }

  lemma {:induction false} SaidByNone(tokens: seq<Token>, thinking: bool)
    requires forall token | token in tokens :: token.thinking != thinking
    ensures Said(tokens, thinking) == ""
  {
    if tokens != [] {
      SaidByNone(tokens[1..], thinking);
    }
  }

  // ----- Finding the tags

  predicate Tag(tag: string) {
    tag != "" && tag[0] == '<' && tag[|tag| - 1] == '>'
  }

  lemma {:induction false} NoTagInPlain(text: string, tag: string)
    requires '<' !in text && Tag(tag)
    ensures Find(text, tag).None?
  {
    if text != "" {
      NoTagInPlain(text[1..], tag);
      assert text[0] in text;
    }
  }

  lemma {:induction false} TagAfterPlain(text: string, tag: string, rest: string)
    requires '<' !in text && Tag(tag)
    ensures Find(text + tag + rest, tag) == Some(|text|)
  {
    var all := text + tag + rest;
    if text == "" {
      assert all[..|tag|] == tag;
    } else {
      assert all[0] == text[0] && text[0] in text;
      assert all[1..] == text[1..] + tag + rest;
      TagAfterPlain(text[1..], tag, rest);
    }
  }

  lemma PartitionAtTag(text: string, tag: string, rest: string)
    requires '<' !in text && Tag(tag)
    ensures Partition(text + tag + rest, tag) == Some((text, rest))
  {
    TagAfterPlain(text, tag, rest);
    assert (text + tag + rest)[..|text|] == text && (text + tag + rest)[|text| + |tag|..] == rest;
  }

  /** Stripping a text with a tag in it strips both sides. */
  lemma StripAroundTag(text: string, tag: string, rest: string)
    requires Tag(tag)
    ensures Strip(text + tag + rest) == LStrip(text) + tag + RStrip(rest)
  {
    assert text + tag + rest == text + (tag + rest);
    LStripPast(text, tag + rest);
    assert LStrip(text) + (tag + rest) == (LStrip(text) + tag) + rest;
    RStripPast(LStrip(text) + tag, rest);
  }

  lemma ExtractPlain(text: string)
    requires '<' !in text
    ensures Extract(text) == (None, Strip(text))
  {
    StripKeeps(text);
    NoTagInPlain(Strip(text), OPEN);
    NoTagInPlain(Strip(text), LONG_OPEN);
  }

  lemma ExtractUnclosed(before: string, thought: string)
    requires '<' !in before && '<' !in thought
    ensures Extract(before + (OPEN + thought)) == (NoneIfEmpty(Strip(thought)), "")
  {
    assert before + (OPEN + thought) == before + OPEN + thought;
    StripAroundTag(before, OPEN, thought);
    LStripKeeps(before);
    RStripKeeps(thought);
    PartitionAtTag(LStrip(before), OPEN, RStrip(thought));
    NoTagInPlain(RStrip(thought), CLOSE);
    StripRStrip(thought);
  }

  lemma ExtractClosed(before: string, thought: string, rest: string)
    requires '<' !in before && '<' !in thought
    ensures Extract(before + (OPEN + (thought + (CLOSE + rest)))) == (NoneIfEmpty(Strip(thought)), Strip(rest))
  {
    var after := thought + (CLOSE + rest);
    assert before + (OPEN + after) == before + OPEN + after;
    StripAroundTag(before, OPEN, after);
    LStripKeeps(before);
    assert after == (thought + CLOSE) + rest;
    RStripPast(thought + CLOSE, rest);
    PartitionAtTag(LStrip(before), OPEN, RStrip(after));
    PartitionAtTag(thought, CLOSE, RStrip(rest));
    StripRStrip(rest);
  }

  lemma {:induction false} NoTagAfterPlain(plain: string, rest: string, tag: string)
    requires '<' !in plain && Tag(tag) && Find(rest, tag).None?
    ensures Find(plain + rest, tag).None?
  {
    if plain == "" {
      assert plain + rest == rest;
    } else {
      var all := plain + rest;
      assert all[0] == plain[0] && plain[0] in plain && all[1..] == plain[1..] + rest;
      NoTagAfterPlain(plain[1..], rest, tag);
      assert |all| >= |tag| ==> all[..|tag|][0] == all[0];
    }
  }

  lemma OtherTag(other: string, rest: string, tag: string)
    requires Tag(tag) && |tag| <= |other| && other[..|tag|] != tag && '<' !in other[1..] && Find(rest, tag).None?
    ensures Find(other + rest, tag).None?
  {
    var all := other + rest;
    NoTagAfterPlain(other[1..], rest, tag);
    assert all[1..] == other[1..] + rest && all[..|tag|] == other[..|tag|];
  }

  lemma LongTagsDiffer()
    ensures '<' !in LONG_OPEN[1..] && '<' !in LONG_CLOSE[1..]
    ensures LONG_OPEN[..|OPEN|] != OPEN && LONG_CLOSE[..|OPEN|] != OPEN
  {
    assert LONG_OPEN[..|OPEN|][6] == 'i' && LONG_CLOSE[..|OPEN|][1] == '/';
  }

  /** No `<think>` is found in a text whose only tags are the long ones. */
  lemma NoShortTag(before: string, thought: string, rest: string)
    requires '<' !in before && '<' !in thought && '<' !in rest
    ensures Find(before + (LONG_OPEN + (thought + (LONG_CLOSE + rest))), OPEN).None?
  {
    hide Find;
    LongTagsDiffer();
    NoTagInPlain(rest, OPEN);
    OtherTag(LONG_CLOSE, rest, OPEN);
    NoTagAfterPlain(thought, LONG_CLOSE + rest, OPEN);
    OtherTag(LONG_OPEN, thought + (LONG_CLOSE + rest), OPEN);
    NoTagAfterPlain(before, LONG_OPEN + (thought + (LONG_CLOSE + rest)), OPEN);
  }

  /** Where a text has no `<think>`, it is split at `<thinking>` and `</thinking>` instead. */
  lemma LongTagsSplit(before: string, thought: string, rest: string)
    requires '<' !in before && '<' !in thought && '<' !in rest
    ensures Extract(before + ("<thinking>" + (thought + ("</thinking>" + rest)))) ==
            (NoneIfEmpty(Strip(thought)), Strip(rest))
  {
    hide Find, Partition, LStrip, RStrip, Strip;
    var b, r := LStrip(before), RStrip(rest);
    StripTwoTags(before, LONG_OPEN, thought, LONG_CLOSE, rest);
    LStripKeeps(before);
    RStripKeeps(rest);
    NoShortTag(b, thought, r);
    NotPartitioned(b + (LONG_OPEN + (thought + (LONG_CLOSE + r))), OPEN);
    PartitionAtTag(b, LONG_OPEN, thought + (LONG_CLOSE + r));
    PartitionAtTag(thought, LONG_CLOSE, r);
    Associative(b, LONG_OPEN, thought + (LONG_CLOSE + r));
    Associative(thought, LONG_CLOSE, r);
    StripRStrip(rest);
  }

  lemma NotPartitioned(text: string, tag: string)
    requires Find(text, tag).None?
    ensures Partition(text, tag).None?
  {
  }

  lemma StripTwoTags(before: string, open: string, thought: string, close: string, rest: string)
    requires Tag(open) && Tag(close)
    ensures Strip(before + (open + (thought + (close + rest)))) ==
            LStrip(before) + (open + (thought + (close + RStrip(rest))))
  {
    var after, inner := thought + (close + rest), thought + close;
    Associative(before, open, after);
    StripAroundTag(before, open, after);
    Associative(thought, close, rest);
    assert inner[|inner| - 1] == close[|close| - 1];
    RStripPast(inner, rest);
    hide Strip, LStrip, RStrip;
    Associative(thought, close, RStrip(rest));
    Associative(LStrip(before), open, RStrip(after));
  }

  // ----- The text cut at its tags

  lemma PhaseChange(tokens: seq<Token>, open: bool, done: bool)
    requires tokens != [] && tokens[0].thinking != open
    ensures Written(tokens, open, done) == (if open then CLOSE else OPEN) + Written(tokens, !open, done)
  {
    var tag, rest := if open then CLOSE else OPEN, Written(tokens[1..], !open, done);
    assert (tag + tokens[0].text) + rest == tag + (tokens[0].text + rest);
  }

  /** The text cut at the tags, which are looked for in turn. */
  function Cut(text: string, open: bool): seq<string>
    decreases |text|
  {
    var parts := Partition(text, if open then CLOSE else OPEN);
    if parts.None? then [text] else [parts.value.0] + Cut(parts.value.1, !open)
  }

  /** The texts of the phases, in turn: a token goes on with the phase it belongs to. */
  function Phases(tokens: seq<Token>, open: bool): (phases: seq<string>)
    ensures phases != []
    decreases |tokens|, if tokens != [] && tokens[0].thinking != open then 1 else 0
  {
    if tokens == [] then [""]
    else if tokens[0].thinking != open then [""] + Phases(tokens, !open)
    else Prepend(tokens[0].text, Phases(tokens[1..], open))
  }

  function Prepend(text: string, parts: seq<string>): seq<string>
    requires parts != []
  {
    [text + parts[0]] + parts[1..]
  }

  lemma {:induction false} FindPast(text: string, rest: string, tag: string)
    requires '<' !in text && Tag(tag)
    ensures Find(text + rest, tag) == var at := Find(rest, tag); if at.Some? then Some(|text| + at.value) else None
  {
    if text == "" {
      assert text + rest == rest;
    } else {
      var all := text + rest;
      assert all[0] == text[0] && text[0] in text && all[1..] == text[1..] + rest;
      FindPast(text[1..], rest, tag);
      if Find(rest, tag).Some? {
        FindInside(rest, tag);
      }
    }
  }

  lemma PartitionPast(text: string, rest: string, tag: string)
    requires '<' !in text && Tag(tag)
    ensures var parts := Partition(rest, tag);
      Partition(text + rest, tag) == if parts.None? then None else Some((text + parts.value.0, parts.value.1))
  {
    FindPast(text, rest, tag);
    var at := Find(rest, tag);
    if at.Some? {
      FindInside(rest, tag);
      assert (text + rest)[..|text| + at.value] == text + rest[..at.value];
      assert (text + rest)[|text| + at.value + |tag|..] == rest[at.value + |tag|..];
    }
  }

  lemma CutPast(text: string, rest: string, open: bool)
    requires '<' !in text
    ensures Cut(rest, open) != [] && Cut(text + rest, open) == Prepend(text, Cut(rest, open))
  {
    PartitionPast(text, rest, if open then CLOSE else OPEN);
    hide Partition;
  }

  lemma CutAtTag(open: bool, rest: string)
    ensures Cut((if open then CLOSE else OPEN) + rest, open) == [""] + Cut(rest, !open)
  {
    var tag := if open then CLOSE else OPEN;
    assert "" + tag + rest == tag + rest;
    PartitionAtTag("", tag, rest);
  }

  lemma CutNothing(open: bool)
    ensures Cut("", open) == [""]
  {
    NoTagInPlain("", if open then CLOSE else OPEN);
  }

  /** What a closing tag at the end leaves: an empty last part. */
  function Ending(tokens: seq<Token>, open: bool, done: bool): seq<string> {
    if done && LastPhase(tokens, open) then [""] else []
  }

  predicate CutsRight(tokens: seq<Token>, open: bool, done: bool) {
    Cut(Written(tokens, open, done), open) == Phases(tokens, open) + Ending(tokens, open, done)
  }

  lemma CutsEmpty(open: bool, done: bool)
    ensures CutsRight([], open, done)
  {
    CutNothing(open);
    if open && done {
      CutAtTag(open, "");
      CutNothing(false);
      assert CLOSE + "" == CLOSE;
    }
  }

  lemma CutsChange(tokens: seq<Token>, open: bool, done: bool)
    requires tokens != [] && tokens[0].thinking != open && CutsRight(tokens, !open, done)
    ensures CutsRight(tokens, open, done)
  {
    PhaseChange(tokens, open, done);
    CutAtTag(open, Written(tokens, !open, done));
    assert Phases(tokens, open) == [""] + Phases(tokens, !open);
    hide Cut, Phases, Written;
    Regroup("", Phases(tokens, !open), Ending(tokens, open, done));
  }

  lemma Regroup(first: string, middle: seq<string>, last: seq<string>)
    ensures [first] + (middle + last) == [first] + middle + last
    ensures middle != [] ==> Prepend(first, middle + last) == Prepend(first, middle) + last
  {
  }

  lemma CutsToken(tokens: seq<Token>, open: bool, done: bool)
    requires tokens != [] && tokens[0].thinking == open && '<' !in tokens[0].text
    requires CutsRight(tokens[1..], open, done)
    ensures CutsRight(tokens, open, done)
  {
    var text, rest := tokens[0].text, tokens[1..];
    CutPast(text, Written(rest, open, done), open);
    assert Written(tokens, open, done) == text + Written(rest, open, done);
    assert Phases(tokens, open) == Prepend(text, Phases(rest, open));
    assert Ending(tokens, open, done) == Ending(rest, open, done);
    hide Cut, Phases, Written, Ending, Prepend;
    Regroup(text, Phases(rest, open), Ending(rest, open, done));
  }

  /** Cutting undoes writing: whatever the number of phases, the text between the tags is the
      text of the tokens between them. */
  lemma {:induction false} CutWritten(tokens: seq<Token>, open: bool, done: bool)
    requires TagFree(tokens)
    ensures CutsRight(tokens, open, done)
    decreases |tokens|, if tokens != [] && tokens[0].thinking != open then 1 else 0
  {
    hide CutsRight;
    if tokens == [] {
      CutsEmpty(open, done);
    } else if tokens[0].thinking != open {
      CutWritten(tokens, !open, done);
      CutsChange(tokens, open, done);
    } else {
      CutWritten(tokens[1..], open, done);
      CutsToken(tokens, open, done);
    }
  }

  /** The yielded text, of tag-free tokens, cut at its tags gives back the phases of the tokens. */
  lemma {:induction false} TextRecoversPhases(lines: seq<Line>)
    requires TagFree(Selected(lines))
    ensures var tokens := Selected(lines);
      Cut(Concat(Texts(Emit(lines, false))), false) == Phases(tokens, false) + Ending(tokens, false, HasDone(lines))
  {
    StreamText(lines, false);
    CutWritten(Selected(lines), false, HasDone(lines));
  }

  // ----- What the split recovers

  /** The tokens after the first thinking phase. */
  function AfterThinking(tokens: seq<Token>): seq<Token> {
    From(From(tokens, true), false)
  }

  /** What is written from the first thinking phase on. */
  lemma WrittenThinking(tokens: seq<Token>, done: bool)
    requires tokens != [] && tokens[0].thinking
    ensures var thought, after := Said(Until(tokens, false), true), From(tokens, false);
      Written(tokens, false, done) == OPEN +
        if after == [] && !done then thought else thought + (CLOSE + Written(after, false, done))
  {
    PhaseChange(tokens, false, done);
    WrittenSplit(tokens, true, done);
    var after := From(tokens, false);
    if after != [] {
      PhaseChange(after, true, done);
    }
  }

  lemma ExtractWithoutThinking(tokens: seq<Token>, done: bool)
    requires TagFree(tokens) && From(tokens, true) == []
    ensures Extract(Written(tokens, false, done)) == (None, Strip(Said(tokens, false)))
  {
    WrittenSplit(tokens, false, done);
    SaidSplit(tokens, true, false);
    SaidTagFree(tokens, false);
    ExtractPlain(Said(tokens, false));
  }

  lemma ExtractWithThinking(tokens: seq<Token>, done: bool)
    requires TagFree(tokens) && From(tokens, true) != []
    ensures Extract(Written(tokens, false, done)) ==
            (NoneIfEmpty(Strip(Said(Until(From(tokens, true), false), true))),
             Strip(Written(AfterThinking(tokens), false, done)))
  {
    var before, thinking := Said(Until(tokens, true), false), From(tokens, true);
    var thought, after := Said(Until(thinking, false), true), From(thinking, false);
    var rest := Written(after, false, done);
    SaidTagFree(Until(tokens, true), false);
    SaidTagFree(Until(thinking, false), true);
    WrittenSplit(tokens, false, done);
    WrittenThinking(thinking, done);
    hide Said, Until, From, Written;
    if after == [] && !done {
      ExtractUnclosed(before, thought);
    } else {
      ExtractClosed(before, thought, rest);
    }
  }

  /** Of any stream of tag-free tokens, done or cut short, the split gives the first thinking
      phase and the text after it; what came before the phase is dropped. */
  lemma {:induction false} ExtractStream(lines: seq<Line>)
    requires TagFree(Selected(lines))
    ensures var tokens := Selected(lines);
      Extract(Concat(Texts(Emit(lines, false)))) ==
        if From(tokens, true) == [] then (None, Strip(Said(tokens, false)))
        else (NoneIfEmpty(Strip(Said(Until(From(tokens, true), false), true))),
              Strip(Written(AfterThinking(tokens), false, HasDone(lines))))
  {
    StreamText(lines, false);
    var tokens, done := Selected(lines), HasDone(lines);
    if From(tokens, true) == [] {
      ExtractWithoutThinking(tokens, done);
    } else {
      ExtractWithThinking(tokens, done);
    }
  }

  lemma WrittenThoughtIsTagged(tokens: seq<Token>, done: bool)
    requires From(tokens, true) != []
    ensures '<' in Written(tokens, false, done)
  {
    WrittenSplit(tokens, false, done);
    PhaseChange(From(tokens, true), false, done);
    assert OPEN[0] == '<' && OPEN[0] in OPEN;
  }

  /** No thought after the first thinking phase, and only white space before it. */
  predicate SplitSafe(tokens: seq<Token>) {
    From(tokens, true) == [] ||
    (Blank(Said(Until(tokens, true), false)) && From(AfterThinking(tokens), true) == [])
  }

  lemma SaidParts(tokens: seq<Token>)
    ensures Said(tokens, false) == Said(Until(tokens, true), false) + Said(AfterThinking(tokens), false)
    ensures Said(tokens, true) == Said(Until(From(tokens, true), false), true) + Said(AfterThinking(tokens), true)
  {
    var thinking := From(tokens, true);
    SaidSplit(tokens, true, false);
    SaidSplit(tokens, true, true);
    SaidSplit(thinking, false, false);
    SaidSplit(thinking, false, true);
    SaidByNone(Until(tokens, true), true);
    SaidByNone(Until(thinking, false), false);
    hide Said, Until, From;
    assert forall text: string :: "" + text == text;
  }

  lemma OnlyAnswer(tokens: seq<Token>, done: bool)
    requires From(tokens, true) == []
    ensures Written(tokens, false, done) == Said(tokens, false) && Said(tokens, true) == ""
  {
    WrittenSplit(tokens, false, done);
    SaidSplit(tokens, true, false);
    SaidByNone(tokens, true);
  }

  lemma SafeAnswer(tokens: seq<Token>, done: bool)
    requires From(tokens, true) != [] && SplitSafe(tokens)
    ensures Strip(Written(AfterThinking(tokens), false, done)) == Strip(Said(tokens, false))
    ensures Said(Until(From(tokens, true), false), true) == Said(tokens, true)
  {
    SaidParts(tokens);
    OnlyAnswer(AfterThinking(tokens), done);
    StripBlankBefore(Said(Until(tokens, true), false), Said(AfterThinking(tokens), false));
  }

  lemma UnsafeAnswer(tokens: seq<Token>, done: bool)
    requires TagFree(tokens) && !SplitSafe(tokens)
    ensures Strip(Written(AfterThinking(tokens), false, done)) != Strip(Said(tokens, false))
  {
    var before, after := Said(Until(tokens, true), false), AfterThinking(tokens);
    StripKeeps(Written(after, false, done));
    StripKeeps(Said(tokens, false));
    if From(after, true) != [] {
      WrittenThoughtIsTagged(after, done);
      SaidTagFree(tokens, false);
    } else {
      SaidParts(tokens);
      OnlyAnswer(after, done);
      InkConcat(before, Said(after, false));
      BlankIffNoInk(before);
    }
  }

  /** The split recovers the thoughts and the answer of a stream of tag-free tokens exactly if
      nothing but white space came before the first thought and no thought came after the
      answer began. */
  lemma {:induction false} StreamRecoveredIffSplitSafe(lines: seq<Line>)
    requires TagFree(Selected(lines))
    ensures var tokens := Selected(lines);
      var recovered := (NoneIfEmpty(Strip(Said(tokens, true))), Strip(Said(tokens, false)));
      Extract(Concat(Texts(Emit(lines, false)))) == recovered <==> SplitSafe(tokens)
  {
    var tokens := Selected(lines);
    ExtractStream(lines);
    if From(tokens, true) == [] {
      SaidByNone(tokens, true);
    } else if SplitSafe(tokens) {
      SafeAnswer(tokens, HasDone(lines));
    } else {
      UnsafeAnswer(tokens, HasDone(lines));
    }
  }

  /** The tags, spelt out: a thought and an answer. */
  lemma ThoughtThenAnswer(thought: string, answer: string)
    requires thought != "" && answer != ""
    ensures Concat(Texts(Emit([Record(false, thought, ""), Record(false, "", answer)], false))) ==
            "<think>" + thought + ("</think>" + answer)
  {
    var lines := [Record(false, thought, ""), Record(false, "", answer)];
    SelectedPair(lines[0], lines[1]);
    StreamText(lines, false);
    var tokens := Selected(lines);
    assert !HasDone(lines) && tokens[1..] == [tokens[1]] && tokens[1..][1..] == [];
    assert Written(tokens[1..], true, false) == "</think>" + answer + "";
    assert "</think>" + answer + "" == "</think>" + answer;
  }

  lemma SelectedPair(first: Line, second: Line)
    requires !Done(first) && !Done(second) && Chosen(first).Some? && Chosen(second).Some?
    ensures Selected([first, second]) == [Chosen(first).value, Chosen(second).value]
  {
    assert [first, second][1..] == [second] && [second][1..] == [];
    assert Selected([second]) == [Chosen(second).value] + [];
  }

  /** For instance a greeting before the first thought is lost. */
  lemma GreetingLost()
    ensures var lines := [Record(false, "", "Hi"), Record(false, "Hm", "")];
      && Selected(lines) == [Token(false, "Hi"), Token(true, "Hm")]
      && Extract(Concat(Texts(Emit(lines, false)))) !=
         (NoneIfEmpty(Strip(Said(Selected(lines), true))), Strip(Said(Selected(lines), false)))
  {
    var lines := [Record(false, "", "Hi"), Record(false, "Hm", "")];
    var hi, hm := Token(false, "Hi"), Token(true, "Hm");
    SelectedPair(lines[0], lines[1]);
    assert [hi, hm][1..] == [hm];
    assert Until([hi, hm], true) == [hi] && From([hi, hm], true) == [hm];
    SaidCons(hi, [], false);
    assert [hi] + [] == [hi] && "Hi" + "" == "Hi";
    assert !Space("Hi"[0]) && !Blank("Hi");
    hide Selected, Extract, Concat, Texts, Emit, Said, Until, From;
    StreamRecoveredIffSplitSafe(lines);
  }
}
