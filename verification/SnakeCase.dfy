/** `to_snake_case` (backend/quant/field_name_conversion.py). Upper and lower case are those of
    ASCII letters. */
module SnakeCase {
  import opened Whitespace

  predicate U(c: char) { 'A' <= c <= 'Z' }
  predicate L(c: char) { 'a' <= c <= 'z' }
  predicate LD(c: char) { L(c) || '0' <= c <= '9' }

  datatype Class = Separators | Underscores | Breaks

  predicate Separator(c: char) {
    Space(c) || c == '-' || c == '.'
  }

  predicate In(k: Class, c: char) {
    (k != Underscores && Separator(c)) || (k != Separators && c == '_')
  }

  // ----- The passes

  /** `([a-z0-9])([A-Z])` becomes `\1_\2`. */
  function Pass1(s: string): string {
    if |s| < 2 then s
    else if LD(s[0]) && U(s[1]) then [s[0], '_', s[1]] + Pass1(s[2..])
    else [s[0]] + Pass1(s[1..])
  }

  /** The number of leading capitals. */
  function Capitals(s: string): (n: nat)
    ensures n <= |s|
  {
    if s == "" || !U(s[0]) then 0 else 1 + Capitals(s[1..])
  }

  /** The capitals at the start of `s` run into a lower-case letter. */
  predicate Leads(s: string) {
    Capitals(s) < |s| && L(s[Capitals(s)])
  }

  /** `([A-Z]+)([A-Z][a-z])` becomes `\1_\2`. */
  function Pass2(s: string): string {
    var n := Capitals(s);
    if s == "" then ""
    else if n >= 2 && Leads(s) then s[..n - 1] + ("_" + (s[n - 1..n + 1] + Pass2(s[n + 1..])))
    else [s[0]] + Pass2(s[1..])
  }

  /** What is left after the leading characters of the class. */
  function Skip(s: string, k: Class): (rest: string)
    ensures |rest| <= |s|
    ensures s != "" && In(k, s[0]) ==> |rest| < |s|
    ensures rest != "" ==> !In(k, rest[0])
  {
    if s != "" && In(k, s[0]) then Skip(s[1..], k) else s
  }

  /** Every run of characters of the class becomes one underscore. */
  function Squeeze(s: string, k: Class): string
    decreases |s|
  {
    if s == "" then ""
    else if In(k, s[0]) then "_" + Squeeze(Skip(s, k), k)
    else [s[0]] + Squeeze(s[1..], k)
  }

  function DropLast(s: string): string {
    if s != "" && s[|s| - 1] == '_' then DropLast(s[..|s| - 1]) else s
  }

  /** `strip("_")`. */
  function StripUnderscores(s: string): string {
    DropLast(Skip(s, Underscores))
  }

  function LowerChar(c: char): char {
    if U(c) then c + ' ' else c
  }

  function Lower(s: string): string {
    if s == "" then "" else [LowerChar(s[0])] + Lower(s[1..])
  }

  function ToSnakeCase(name: string): string {
    Lower(StripUnderscores(Squeeze(Squeeze(Pass2(Pass1(name)), Separators), Underscores)))
  }

  // ----- The first two passes are one

  /** Between `p` and `c`, when `q` comes after `c`, a word begins. */
  predicate Boundary(p: char, c: char, q: char) {
    U(c) && (LD(p) || (U(p) && L(q)))
  }

  function First(s: string, q: char): char {
    if s == "" then q else s[0]
  }

  function Last(p: char, s: string): char {
    if s == "" then p else s[|s| - 1]
  }

  /** An underscore at every boundary of `s`, when `p` comes before it and `q` after it. */
  function Mark(p: char, s: string, q: char): string
    decreases |s|
  {
    if s == "" then ""
    else
      var rest := [s[0]] + Mark(s[0], s[1..], q);
      if Boundary(p, s[0], First(s[1..], q)) then "_" + rest else rest
  }

  /** What the first pass marks. */
  function Mark1(p: char, s: string): string
    decreases |s|
  {
    if s == "" then ""
    else
      var rest := [s[0]] + Mark1(s[0], s[1..]);
      if LD(p) && U(s[0]) then "_" + rest else rest
  }

  /** What the second pass marks. */
  function Mark2(p: char, s: string): string
    decreases |s|
  {
    if s == "" then ""
    else
      var rest := [s[0]] + Mark2(s[0], s[1..]);
      if U(p) && U(s[0]) && L(First(s[1..], ' ')) then "_" + rest else rest
  }

  lemma {:induction false} Pass1Marks(p: char, s: string)
    requires s == "" || !(LD(p) && U(s[0]))
    ensures Pass1(s) == Mark1(p, s)
    decreases |s|
  {
    if |s| >= 2 {
      if LD(s[0]) && U(s[1]) {
        Pass1Marks(s[1], s[2..]);
        assert s[1..][1..] == s[2..];
      } else {
        Pass1Marks(s[0], s[1..]);
      }
    }
  }

  /** Where capitals run into a lower-case letter, the last one is marked. */
  lemma {:induction false} Mark2Capitals(p: char, run: string, word: string, rest: string)
    requires forall c | c in run :: U(c)
    requires |word| == 2 && U(word[0]) && L(word[1]) && (run != "" || U(p))
    ensures Mark2(p, run + (word + rest)) == run + ("_" + (word + Mark2(word[1], rest)))
    decreases |run|
  {
    var s := run + (word + rest);
    if run == "" {
      assert s == word + rest && s[1..][1..] == rest && s[1..][0] == word[1];
      assert Mark2(p, s) == "_" + ([word[0]] + Mark2(word[0], s[1..]));
      assert Mark2(word[0], s[1..]) == [word[1]] + Mark2(word[1], rest);
      assert word == [word[0]] + [word[1]];
    } else {
      Mark2Capitals(run[0], run[1..], word, rest);
      assert s[1..] == run[1..] + (word + rest);
      assert U(First(s[1..], ' '));
      assert run == [run[0]] + run[1..];
    }
  }

  lemma {:induction false} CapitalsAreCapitals(s: string)
    ensures forall i | 0 <= i < Capitals(s) :: U(s[i])
  {
    if s != "" && U(s[0]) {
      CapitalsAreCapitals(s[1..]);
    }
  }

  lemma StepAtCapitals(p: char, s: string)
    requires Capitals(s) >= 2 && Leads(s)
    ensures var n := Capitals(s);
      && Mark2(p, s) == s[..n - 1] + ("_" + (s[n - 1..n + 1] + Mark2(s[n], s[n + 1..])))
      && Pass2(s) == s[..n - 1] + ("_" + (s[n - 1..n + 1] + Pass2(s[n + 1..])))
  {
    var n := Capitals(s);
    var run, word, rest := s[..n - 1], s[n - 1..n + 1], s[n + 1..];
    assert s == run + (word + rest);
    CapitalsAreCapitals(s);
    forall c | c in run ensures U(c) {
      var i :| 0 <= i < |run| && run[i] == c;
      assert s[i] == c;
    }
    Mark2Capitals(p, run, word, rest);
  }

  lemma CapitalsTail(s: string)
    requires s != "" && U(s[0])
    ensures Capitals(s) == 1 + Capitals(s[1..])
    ensures Leads(s) <==> Leads(s[1..])
  {
  }

  lemma StepElsewhere(p: char, s: string)
    requires s != "" && !(Leads(s) && Capitals(s) >= if U(p) then 1 else 2)
    ensures Mark2(p, s) == [s[0]] + Mark2(s[0], s[1..])
    ensures Pass2(s) == [s[0]] + Pass2(s[1..])
    ensures !(U(s[0]) && Capitals(s[1..]) >= 1 && Leads(s[1..]))
  {
    if U(s[0]) {
      CapitalsTail(s);
      assert |s| > 1 && L(s[1]) ==> Capitals(s[1..]) == 0 && Leads(s[1..]);
    }
  }

  lemma {:induction false} Pass2Marks(p: char, s: string)
    requires !(U(p) && Capitals(s) >= 1 && Leads(s))
    ensures Pass2(s) == Mark2(p, s)
    decreases |s|
  {
    var n := Capitals(s);
    if s == "" {
    } else if n >= 2 && Leads(s) {
      StepAtCapitals(p, s);
      hide Pass2, Mark2;
      Pass2Marks(s[n], s[n + 1..]);
    } else {
      StepElsewhere(p, s);
      hide Pass2, Mark2;
      Pass2Marks(s[0], s[1..]);
    }
  }

  lemma {:induction false} MarksCompose(p: char, s: string)
    ensures Mark2(p, Mark1(p, s)) == Mark(p, s, ' ')
    decreases |s|
  {
    if s != "" {
      var c, t := s[0], s[1..];
      var rest := Mark1(c, t);
      MarksCompose(c, t);
      var plain := [c] + rest;
      assert plain[1..] == rest;
      if LD(p) && U(c) {
        var marked := "_" + plain;
        assert marked[0] == '_' && marked[1..] == plain;
      }
    }
  }

  /** The two passes insert an underscore exactly at the boundaries. */
  lemma PassesMarkBoundaries(s: string)
    ensures Pass2(Pass1(s)) == Mark(' ', s, ' ')
  {
    Pass1Marks(' ', s);
    Pass2Marks(' ', Pass1(s));
    MarksCompose(' ', s);
  }

  /** A word begins with the capital at `i`: it follows a small letter or a digit, or stands
      between another capital and a small letter. */
  predicate BeginsWord(s: string, i: nat)
    requires 0 < i < |s|
  {
    && 'A' <= s[i] <= 'Z'
    && (|| 'a' <= s[i - 1] <= 'z' || '0' <= s[i - 1] <= '9'
        || ('A' <= s[i - 1] <= 'Z' && i + 1 < |s| && 'a' <= s[i + 1] <= 'z'))
  }

  /** The characters from `i` on, with an underscore before each that begins a word. */
  function Underscored(s: string, i: nat): string
    requires i <= |s|
    decreases |s| - i
  {
    if i == |s| then ""
    else (if i > 0 && BeginsWord(s, i) then ['_', s[i]] else [s[i]]) + Underscored(s, i + 1)
  }

  lemma {:induction false} MarkUnderscores(s: string, i: nat)
    requires i <= |s|
    ensures Mark(if i == 0 then ' ' else s[i - 1], s[i..], ' ') == Underscored(s, i)
    decreases |s| - i
  {
    if i < |s| {
      MarkUnderscores(s, i + 1);
      assert s[i..][1..] == s[i + 1..] && s[i..][0] == s[i];
      assert "_" + [s[i]] == ['_', s[i]];
    }
  }

  /** The two passes put an underscore before each capital that begins a word, and nowhere else. */
  lemma PassesUnderscoreWords(s: string)
    ensures Pass2(Pass1(s)) == Underscored(s, 0)
  {
    PassesMarkBoundaries(s);
    MarkUnderscores(s, 0);
    assert s[0..] == s;
  }

  // ----- The other passes leave the words, joined

  lemma {:induction false} SkipSqueezed(s: string)
    ensures Skip(Squeeze(s, Separators), Underscores) == Squeeze(Skip(s, Breaks), Separators)
    decreases |s|
  {
    if s == "" {
    } else if Separator(s[0]) {
      SkipSqueezed(Skip(s, Separators));
      SkipTwice(s, Separators);
      assert ("_" + Squeeze(Skip(s, Separators), Separators))[1..] == Squeeze(Skip(s, Separators), Separators);
    } else if s[0] == '_' {
      SkipSqueezed(s[1..]);
      assert ([s[0]] + Squeeze(s[1..], Separators))[1..] == Squeeze(s[1..], Separators);
    }
  }

  lemma {:induction false} SkipTwice(s: string, k: Class)
    ensures Skip(Skip(s, k), Breaks) == Skip(s, Breaks)
    decreases |s|
  {
    if s != "" && In(k, s[0]) {
      SkipTwice(s[1..], k);
    }
  }

  lemma {:induction false} SqueezeTwice(s: string)
    ensures Squeeze(Squeeze(s, Separators), Underscores) == Squeeze(s, Breaks)
    decreases |s|
  {
    if s != "" {
      var rest := if Separator(s[0]) then Squeeze(Skip(s, Separators), Separators) else Squeeze(s[1..], Separators);
      var once := Squeeze(s, Separators);
      assert once == [if Separator(s[0]) then '_' else s[0]] + rest;
      assert once[1..] == rest;
      if In(Breaks, s[0]) {
        SkipSqueezed(s);
        SqueezeTwice(Skip(s, Breaks));
      } else {
        SqueezeTwice(s[1..]);
      }
    }
  }

  /** The length of the word that `s` starts with. */
  function WordLength(s: string): (n: nat)
    ensures n <= |s|
    ensures forall i | 0 <= i < n :: !In(Breaks, s[i])
    ensures n < |s| ==> In(Breaks, s[n])
  {
    if s == "" || In(Breaks, s[0]) then 0 else 1 + WordLength(s[1..])
  }

  /** The words between separators and underscores. */
  function Words(s: string): seq<string>
    decreases |s|
  {
    var t := Skip(s, Breaks);
    if t == "" then [] else [t[..WordLength(t)]] + Words(t[WordLength(t)..])
  }

  function Join(words: seq<string>, with: string): string {
    if words == [] then ""
    else if |words| == 1 then words[0]
    else words[0] + with + Join(words[1..], with)
  }

  lemma {:induction false} SqueezeWord(s: string)
    ensures Squeeze(s, Breaks) == s[..WordLength(s)] + Squeeze(s[WordLength(s)..], Breaks)
    decreases |s|
  {
    var n := WordLength(s);
    if n == 0 {
      assert s[..0] + Squeeze(s[0..], Breaks) == Squeeze(s, Breaks) by { assert s[0..] == s; }
    } else {
      SqueezeWord(s[1..]);
      assert s[..n] == [s[0]] + s[1..][..n - 1] && s[n..] == s[1..][n - 1..];
    }
  }

  lemma {:induction false} DropLastPast(s: string, t: string)
    requires s != "" && s[|s| - 1] != '_'
    ensures DropLast(s + t) == s + DropLast(t)
    decreases |t|
  {
    if t == "" {
      assert s + t == s;
    } else {
      assert (s + t)[..|s + t| - 1] == s + t[..|t| - 1];
      if t[|t| - 1] == '_' {
        DropLastPast(s, t[..|t| - 1]);
      }
    }
  }

  /** Without breaks in front, the squeezed string without its last underscore is the words joined. */
  lemma {:induction false} SqueezedWords(s: string)
    requires s == "" || !In(Breaks, s[0])
    ensures DropLast(Squeeze(s, Breaks)) == Join(Words(s), "_")
    ensures s != "" ==> Squeeze(s, Breaks) != "" && Squeeze(s, Breaks)[0] == s[0]
    decreases |s|
  {
    if s != "" {
      var n := WordLength(s);
      var word, gap := s[..n], s[n..];
      SqueezeWord(s);
      DropLastPast(word, Squeeze(gap, Breaks));
      var rest := Skip(gap, Breaks);
      assert Words(gap) == Words(rest) by { SkipTwice(gap, Breaks); }
      if gap != "" {
        SqueezedWords(rest);
        if rest == "" {
          assert Squeeze(gap, Breaks) == "_" && "_"[..0] == "";
        } else {
          DropLastAfterUnderscore(Squeeze(rest, Breaks));
        }
      }
    }
  }

  lemma {:induction false} DropLastAfterUnderscore(s: string)
    requires s != "" && s[0] != '_'
    ensures DropLast("_" + s) == "_" + DropLast(s)
  {
    assert "_" + s == ("_" + [s[0]]) + s[1..];
    DropLastPast("_" + [s[0]], s[1..]);
    assert s == [s[0]] + s[1..];
    DropLastPast([s[0]], s[1..]);
  }

  /** The words of a name: what the breaks and the boundaries between them leave. */
  function Tokens(name: string): seq<string> {
    Words(Mark(' ', name, ' '))
  }

  /** The snake-case name is the words of the name, in lower case and joined by underscores. */
  lemma ToSnakeCaseJoinsTokens(name: string)
    ensures ToSnakeCase(name) == Lower(Join(Tokens(name), "_"))
  {
    var marked := Mark(' ', name, ' ');
    PassesMarkBoundaries(name);
    SqueezeTwice(marked);
    var s := Squeeze(marked, Breaks);
    var body := Skip(marked, Breaks);
    SqueezedWords(body);
    SkipTwice(marked, Breaks);
    assert Skip(s, Underscores) == Squeeze(body, Breaks) by {
      if s != "" && s[0] == '_' {
        assert s[1..] == Squeeze(body, Breaks);
      }
    }
  }
}
