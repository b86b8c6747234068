/** The two log filters that replace floods of records by periodic summaries
    (backend/api/log_filters.py, backend/celery_task/log_filters.py). */
module Throttle {
  import opened Options
  import opened Whitespace

  const INTERVAL := 300.0
  const WARNING := 30
  const THROTTLED: set<string> := {"/docs", "/health", "/openapi.json", "/redoc", "/favicon.ico"}
  const SUPPRESSED: set<string> := {"/api/v1/centrifugo/publish"}
  const INFO_SUPPRESSED: set<string> := {"/metrics"}

  type Counts = map<string, nat>

  function Count(counts: Counts, key: string): nat {
    if key in counts then counts[key] else 0
  }

  /** What a filter makes of a record before it looks at the clock. */
  datatype Verdict = Dropped | Passed | Throttled(key: string)

  datatype Event = Event(verdict: Verdict, now: real)

  datatype Outcome = Drop | Pass | Summarise(counts: Counts)

  datatype State = State(counts: Counts, lastFlush: real)

  function Step(s: State, e: Event): (State, Outcome) {
    match e.verdict
    case Dropped => (s, Drop)
    case Passed => (s, Pass)
    case Throttled(key) =>
      var counts := s.counts[key := Count(s.counts, key) + 1];
      if e.now - s.lastFlush >= INTERVAL then (State(map[], e.now), Summarise(counts))
      else (State(counts, s.lastFlush), Drop)
  }

  // ----- Whole runs of a filter

  function After(start: State, events: seq<Event>): State {
    if events == [] then start
    else Step(After(start, events[..|events| - 1]), events[|events| - 1]).0
  }

  function OutcomeAt(start: State, events: seq<Event>, i: nat): Outcome
    requires i < |events|
  {
    Step(After(start, events[..i]), events[i]).1
  }

  /** How often the key was throttled. */
  function Seen(events: seq<Event>, key: string): nat {
    if events == [] then 0
    else Seen(events[..|events| - 1], key) + if events[|events| - 1].verdict == Throttled(key) then 1 else 0
  }

  /** What the summaries of the run say of the key, added up. */
  function Reported(start: State, events: seq<Event>, key: string): nat {
    if events == [] then 0
    else
      var outcome := OutcomeAt(start, events, |events| - 1);
      Reported(start, events[..|events| - 1], key) + if outcome.Summarise? then Count(outcome.counts, key) else 0
  }

  /** No throttled record is lost and none is counted twice: the summaries and what is still
      pending add up to the records. */
  lemma {:induction false} CountsConserved(start: State, events: seq<Event>, key: string)
    ensures Reported(start, events, key) + Count(After(start, events).counts, key) ==
            Seen(events, key) + Count(start.counts, key)
    decreases |events|
  {
    if events != [] {
      CountsConserved(start, events[..|events| - 1], key);
    }
  }

  predicate Summary(start: State, events: seq<Event>, i: nat)
    requires i < |events|
  {
    OutcomeAt(start, events, i).Summarise?
  }

  /** When the run last summarised before event `i`, or when it started. */
  function LastSummary(start: State, events: seq<Event>, i: nat): real
    requires i <= |events|
  {
    if i == 0 then start.lastFlush
    else if Summary(start, events, i - 1) then events[i - 1].now
    else LastSummary(start, events, i - 1)
  }

  lemma {:induction false} LastSummaryIsFlush(start: State, events: seq<Event>, i: nat)
    requires i <= |events|
    ensures After(start, events[..i]).lastFlush == LastSummary(start, events, i)
  {
    if i > 0 {
      LastSummaryIsFlush(start, events, i - 1);
      assert events[..i][..i - 1] == events[..i - 1];
    }
  }

  /** A throttled record turns into a summary exactly if the interval has passed since the last
      summary, so summaries are at least an interval apart; and the summary counts that record. */
  lemma SummaryIffIntervalPassed(start: State, events: seq<Event>, i: nat)
    requires i < |events|
    ensures Summary(start, events, i) <==>
            events[i].verdict.Throttled? && events[i].now - LastSummary(start, events, i) >= 300.0
    ensures Summary(start, events, i) ==> Count(OutcomeAt(start, events, i).counts, events[i].verdict.key) > 0
  {
    LastSummaryIsFlush(start, events, i);
  }

  lemma {:induction false} LastSummaryNotBefore(start: State, events: seq<Event>, i: nat, j: nat)
    requires i < j <= |events| && Summary(start, events, i)
    ensures LastSummary(start, events, j) >= events[i].now
  {
    if i < j - 1 {
      LastSummaryNotBefore(start, events, i, j - 1);
      SummaryIffIntervalPassed(start, events, j - 1);
    }
  }

  lemma SummariesApart(start: State, events: seq<Event>, i: nat, j: nat)
    requires i < j < |events| && Summary(start, events, i) && Summary(start, events, j)
    ensures events[j].now - events[i].now >= 300.0
  {
    LastSummaryNotBefore(start, events, i, j);
    SummaryIffIntervalPassed(start, events, j);
  }

  // ----- The filters

  datatype Message = Text(text: string) | Totals(counts: Counts)

  /** `render` is how a summary reads as text. */
  class Record {
    const render: Counts -> string
    var message: Message
    var level: int
    var requestLine: Option<string>
    var clientAddr: string
    var statusCode: string

    constructor (render: Counts -> string, text: string, level: int, requestLine: Option<string>,
        clientAddr: string, statusCode: string)
      ensures this.render == render && message == Text(text) && this.level == level && this.requestLine == requestLine
      ensures this.clientAddr == clientAddr && this.statusCode == statusCode
    {
      this.render := render;
      message := Text(text);
      this.level, this.requestLine, this.clientAddr, this.statusCode := level, requestLine, clientAddr, statusCode;
    }

    function GetMessage(): string
      reads this
    {
      if message.Text? then message.text else render(message.counts)
    }
  }

  function WordLength(s: string): (n: nat)
    ensures n <= |s|
  {
    if s == "" || Space(s[0]) then 0 else 1 + WordLength(s[1..])
  }

  /** The second word of a text, or "" if it has none. */
  function SecondWord(s: string): string {
    var first := LStrip(s);
    var rest := LStrip(first[WordLength(first)..]);
    rest[..WordLength(rest)]
  }

  predicate Word(s: string) {
    s != "" && forall c | c in s :: !Space(c)
  }

  lemma {:induction false} LeadingWord(word: string, rest: string)
    requires (forall c | c in word :: !Space(c)) && (rest == "" || Space(rest[0]))
    ensures WordLength(word + rest) == |word|
  {
    if word == "" {
      assert word + rest == rest;
    } else {
      assert (word + rest)[1..] == word[1..] + rest;
      LeadingWord(word[1..], rest);
    }
  }

  lemma BlankBeforeWord(blank: string, rest: string)
    requires Blank(blank) && rest != "" && !Space(rest[0])
    ensures LStrip(blank + rest) == rest
  {
    LStripPast(blank, rest);
    BlankLStrips(blank);
    assert "" + rest == rest;
  }

  lemma {:induction false} BlankLStrips(s: string)
    requires Blank(s)
    ensures LStrip(s) == ""
  {
    if s != "" {
      BlankLStrips(s[1..]);
    }
  }

  /** The second word of a text is what lies between the second gap and the third, however wide
      the gaps are. */
  lemma SecondWordIs(lead: string, first: string, gap: string, second: string, tail: string)
    requires Blank(lead) && Word(first) && Blank(gap) && gap != "" && Word(second) && (tail == "" || Space(tail[0]))
    ensures SecondWord(lead + (first + (gap + (second + tail)))) == second
  {
    var rest := gap + (second + tail);
    assert first[0] in first && second[0] in second && gap[0] in gap;
    assert (first + rest)[0] == first[0] && (second + tail)[0] == second[0] && rest[0] == gap[0];
    BlankBeforeWord(lead, first + rest);
    LeadingWord(first, rest);
    assert (first + rest)[|first|..] == rest;
    BlankBeforeWord(gap, second + tail);
    LeadingWord(second, tail);
    assert (second + tail)[..|second|] == second;
  }

  /** And a text of one word, or none, has no second one. */
  lemma NoSecondWord(lead: string, first: string, tail: string)
    requires Blank(lead) && Word(first) && Blank(tail)
    ensures SecondWord(lead + (first + tail)) == "" && SecondWord(lead) == ""
  {
    assert first[0] in first && (first + tail)[0] == first[0] && (tail != "" ==> tail[0] in tail);
    BlankBeforeWord(lead, first + tail);
    LeadingWord(first, tail);
    assert (first + tail)[|first|..] == tail;
    BlankLStrips(tail);
    BlankLStrips(lead);
  }

  function Path(requestLine: Option<string>, text: string): string {
    SecondWord(if requestLine.Some? && requestLine.value != "" then requestLine.value else text)
  }

  function HealthVerdict(path: string, level: int): Verdict {
    if path in SUPPRESSED then Dropped
    else if path in INFO_SUPPRESSED then if level >= WARNING then Passed else Dropped
    else if path in THROTTLED then Throttled(path)
    else Passed
  }

  /** Which request lines are dropped, passed and counted: by the path, which is the second word.
      A record without a request line, or with an empty one, has it in its message. */
  lemma RequestVerdict(verb: string, path: string, protocol: string, text: string, level: int)
    requires Word(verb) && Word(path)
    ensures var line := verb + (" " + (path + (" " + protocol)));
      Path(Some(line), text) == Path(None, line) == Path(Some(""), line)
    ensures HealthVerdict(Path(Some(verb + (" " + (path + (" " + protocol)))), text), level) ==
      if path == "/api/v1/centrifugo/publish" then Dropped
      else if path == "/metrics" then if level >= 30 then Passed else Dropped
      else if path in {"/docs", "/health", "/openapi.json", "/redoc", "/favicon.ico"} then Throttled(path)
      else Passed
  {
    var line := verb + (" " + (path + (" " + protocol)));
    SecondWordIs("", verb, " ", path, " " + protocol);
    assert "" + line == line && line != "";
  }

  class HealthCheckThrottleFilter {
    var counts: Counts
    var lastFlush: real

    function Value(): State
      reads this
    {
      State(counts, lastFlush)
    }

    constructor (now: real)
      ensures Value() == State(map[], now)
    {
      counts, lastFlush := map[], now;
    }

    /** What happens under the filter's lock. */
    method Tally(key: string, now: real) returns (summary: Option<Counts>)
      modifies this
      ensures var (next, outcome) := Step(old(Value()), Event(Throttled(key), now));
        Value() == next && summary == if outcome.Summarise? then Some(outcome.counts) else None
    {
      counts := counts[key := (if key in counts then counts[key] else 0) + 1];
      if now - lastFlush >= INTERVAL {
        lastFlush := now;
        var snapshot := counts;
        counts := map[];
        return Some(snapshot);
      }
      return None;
    }

    method Filter(record: Record, now: real) returns (pass: bool)
      modifies this, record
      ensures var verdict := HealthVerdict(Path(old(record.requestLine), old(record.GetMessage())), old(record.level));
        var (next, outcome) := Step(old(Value()), Event(verdict, now));
        && Value() == next
        && pass == !outcome.Drop?
        && (if outcome.Summarise?
            then record.message == Totals(outcome.counts) && record.requestLine == Some("[summary]")
              && record.clientAddr == record.statusCode == "-" && record.level == old(record.level)
            else unchanged(record))
    {
      var path := Path(record.requestLine, record.GetMessage());
      hide Path;
      if path in SUPPRESSED {
        return false;
      }
      if path in INFO_SUPPRESSED {
        return record.level >= WARNING;
      }
      if path !in THROTTLED {
        return true;
      }
      assert HealthVerdict(path, record.level) == Throttled(path);
      hide HealthVerdict;
      var summary := Tally(path, now);
      if summary.None? {
        return false;
      }
      record.message := Totals(summary.value);
      record.requestLine, record.clientAddr, record.statusCode := Some("[summary]"), "-", "-";
      return true;
    }
  }

  class CeleryTaskSummaryFilter {
    var counts: Counts
    var lastFlush: real

    function Value(): State
      reads this
    {
      State(counts, lastFlush)
    }

    constructor (now: real)
      ensures Value() == State(map[], now)
    {
      counts, lastFlush := map[], now;
    }

    /** What happens under the filter's lock. */
    method Tally(key: string, now: real) returns (summary: Option<Counts>)
      modifies this
      ensures var (next, outcome) := Step(old(Value()), Event(Throttled(key), now));
        Value() == next && summary == if outcome.Summarise? then Some(outcome.counts) else None
    {
      counts := counts[key := (if key in counts then counts[key] else 0) + 1];
      if now - lastFlush >= INTERVAL {
        lastFlush := now;
        var snapshot := counts;
        counts := map[];
        return Some(snapshot);
      }
      return None;
    }

    /** `task` is the name that the patterns find in the message, if they match. */
    method Filter(record: Record, task: Option<string>, now: real) returns (pass: bool)
      modifies this, record`message
      ensures var verdict := if task.Some? then Throttled(task.value) else Passed;
        var (next, outcome) := Step(old(Value()), Event(verdict, now));
        && Value() == next
        && pass == !outcome.Drop?
        && record.message == if outcome.Summarise? then Totals(outcome.counts) else old(record.message)
    {
      if task.None? {
        return true;
      }
      var summary := Tally(task.value, now);
      if summary.None? {
        return false;
      }
      record.message := Totals(summary.value);
      return true;
    }
  }
}
