/** The naming conventions that `to_snake_case` is to bring to one form
    (backend/quant/field_name_conversion.py). */
module SnakeCaseConventions {
  import opened SnakeCase
  import opened SnakeCaseLaws
  import opened Strings

  predicate Word(w: string) {
    w != "" && forall i | 0 <= i < |w| :: L(w[i])
  }

  predicate AllWords(words: seq<string>) {
    forall i | 0 <= i < |words| :: Word(words[i])
  }

  datatype Case = Small | Capital | Big

  function Upper(s: string): (upper: string)
    ensures |upper| == |s|
  {
    if s == "" then "" else [if L(s[0]) then s[0] - ' ' else s[0]] + Upper(s[1..])
  }

  /** contract, Contract or CONTRACT. */
  function Cased(w: string, k: Case): (cased: string)
    ensures |cased| == |w|
  {
    match k
    case Small => w
    case Capital => if w == "" then "" else Upper(w[..1]) + w[1..]
    case Big => Upper(w)
  }

  function CasedAll(words: seq<string>, cases: seq<Case>): (cased: seq<string>)
    requires |words| == |cases|
    ensures |cased| == |words|
  {
    if words == [] then [] else [Cased(words[0], cases[0])] + CasedAll(words[1..], cases[1..])
  }

  lemma {:induction false} CasedAllAt(words: seq<string>, cases: seq<Case>, i: nat)
    requires |words| == |cases| && i < |words|
    ensures CasedAll(words, cases)[i] == Cased(words[i], cases[i])
  {
    hide Cased;
    if i > 0 {
      CasedAllAt(words[1..], cases[1..], i - 1);
    }
  }

  lemma {:induction false} UpperLetters(w: string)
    requires forall i | 0 <= i < |w| :: L(w[i])
    ensures forall i | 0 <= i < |w| :: U(Upper(w)[i])
    ensures Lower(Upper(w)) == w
    ensures Lower(w) == w
  {
    if w != "" {
      UpperLetters(w[1..]);
      assert Upper(w)[1..] == Upper(w[1..]);
    }
  }

  lemma CapitalLetters(w: string)
    requires Word(w)
    ensures Clean(Cased(w, Capital)) && Lower(Cased(w, Capital)) == w
  {
    var head, tail := w[..1], w[1..];
    UpperLetters(head);
    UpperLetters(tail);
    hide Upper, Lower;
    LowerConcat(Upper(head), tail);
    assert w == head + tail;
  }

  /** In whatever case, a word is letters only, and in lower case it is the word. */
  lemma CasedLetters(w: string, k: Case)
    requires Word(w)
    ensures Clean(Cased(w, k)) && Lower(Cased(w, k)) == w
  {
    if k == Capital {
      CapitalLetters(w);
    } else {
      UpperLetters(w);
    }
  }

  lemma {:induction false} MarkConcat(p: char, s: string, t: string, q: char)
    ensures Mark(p, s + t, q) == Mark(p, s, First(t, q)) + Mark(Last(p, s), t, q)
    decreases |s|
  {
    if s == "" {
      assert s + t == t;
    } else {
      var rest := s[1..];
      assert (s + t)[1..] == rest + t;
      MarkConcat(s[0], rest, t, q);
      var head, tail := Mark(s[0], rest, First(t, q)), Mark(Last(s[0], rest), t, q);
      assert First(rest + t, q) == First(rest, First(t, q));
      Associative([s[0]], head, tail);
      Associative("_", [s[0]] + head, tail);
    }
  }

  /** Not a character that a word could begin after. */
  predicate Quiet(c: char) {
    !U(c) && !LD(c)
  }

  lemma {:induction false} MarkCapitals(p: char, s: string, q: char)
    requires forall i | 0 <= i < |s| :: U(s[i])
    requires !LD(p) && !L(q)
    ensures Mark(p, s, q) == s
    decreases |s|
  {
    if s != "" {
      MarkCapitals(s[0], s[1..], q);
    }
  }

  lemma MarkHead(p: char, c: char, tail: string, q: char)
    requires U(c) && !L(q) && forall i | 0 <= i < |tail| :: L(tail[i])
    ensures Mark(p, [c] + tail, q) == (if LD(p) || (U(p) && tail != "") then "_" else "") + ([c] + tail)
  {
    var s := [c] + tail;
    assert s[1..] == tail;
    MarkWithoutCapitals(c, tail, q);
    assert "" + s == s;
  }

  /** A capitalised word gets a mark in front at most. */
  lemma MarkCapitalised(p: char, w: string, q: char)
    requires Word(w) && !L(q)
    ensures Mark(p, Cased(w, Capital), q) ==
            (if LD(p) || (U(p) && |w| > 1) then "_" else "") + Cased(w, Capital)
    ensures Last(p, Cased(w, Capital)) == if |w| > 1 then w[|w| - 1] else Cased(w, Capital)[0]
    ensures U(Cased(w, Capital)[0])
  {
    var head := Upper(w[..1]);
    UpperLetters(w[..1]);
    assert head == [head[0]];
    MarkHead(p, head[0], w[1..], q);
  }

  lemma MarkWord(p: char, w: string, k: Case, q: char)
    requires Word(w) && Quiet(p) && Quiet(q)
    ensures Mark(p, Cased(w, k), q) == Cased(w, k)
  {
    match k
    case Small => MarkWithoutCapitals(p, w, q);
    case Capital => MarkCapitalised(p, w, q);
    case Big =>
      UpperLetters(w);
      MarkCapitals(p, Upper(w), q);
  }

  // ----- Words with separators between them, each in a case of its own

  lemma {:induction false} MarkSeparated(p: char, words: seq<string>, cases: seq<Case>, c: char)
    requires AllWords(words) && |words| == |cases| && Quiet(p) && In(Breaks, c)
    ensures var name := Join(CasedAll(words, cases), [c]); Mark(p, name, ' ') == name
    decreases |words|
  {
    if |words| == 1 {
      MarkWord(p, words[0], cases[0], ' ');
    } else if words != [] {
      var word, rest := Cased(words[0], cases[0]), Join(CasedAll(words[1..], cases[1..]), [c]);
      MarkSeparated(c, words[1..], cases[1..], c);
      MarkWord(p, words[0], cases[0], c);
      MarkConcat(p, word, [c] + rest, ' ');
      MarkSeparator(Last(p, word), c, rest);
      assert CasedAll(words, cases)[1..] == CasedAll(words[1..], cases[1..]);
      assert word + [c] + rest == word + ([c] + rest);
    }
  }

  lemma MarkSeparator(p: char, c: char, rest: string)
    requires In(Breaks, c)
    ensures Mark(p, [c] + rest, ' ') == [c] + Mark(c, rest, ' ')
  {
    assert ([c] + rest)[1..] == rest;
  }

  lemma {:induction false} LowerCased(words: seq<string>, cases: seq<Case>)
    requires AllWords(words) && |words| == |cases|
    ensures LowerAll(CasedAll(words, cases)) == words
  {
    if words != [] {
      LowerCased(words[1..], cases[1..]);
      CasedLetters(words[0], cases[0]);
      assert CasedAll(words, cases)[1..] == CasedAll(words[1..], cases[1..]);
    }
  }

  lemma CasedClean(words: seq<string>, cases: seq<Case>)
    requires AllWords(words) && |words| == |cases|
    ensures AllClean(CasedAll(words, cases)) && AllClean(words)
  {
    forall i | 0 <= i < |words| ensures Clean(CasedAll(words, cases)[i]) && Clean(words[i]) {
      CasedAllAt(words, cases, i);
      CasedLetters(words[i], cases[i]);
      CasedLetters(words[i], Small);
    }
  }

  /** Title Case, SCREAMING_SNAKE, SCREAMING SPACE, kebab-case, spaced words and any mixture of
      them: the words, in whatever case, with any separator, come out in lower case and joined
      by underscores; and splitting that gives the words back. */
  lemma {:induction false} SeparatedConventionsAgree(words: seq<string>, cases: seq<Case>, c: char)
    requires AllWords(words) && |words| == |cases| && In(Breaks, c)
    ensures ToSnakeCase(Join(CasedAll(words, cases), [c])) == Join(words, "_")
    ensures Words(Join(words, "_")) == words
  {
    var cased := CasedAll(words, cases);
    CasedClean(words, cases);
    MarkSeparated(' ', words, cases, c);
    WordsOfJoin(cased, c);
    ToSnakeCaseJoinsTokens(Join(cased, [c]));
    LowerJoin(cased);
    LowerCased(words, cases);
    WordsOfJoin(words, '_');
  }

  // ----- PascalCase and camelCase

  function Capitalised(words: seq<string>): (capitalised: seq<string>)
    ensures |capitalised| == |words|
  {
    if words == [] then [] else [Cased(words[0], Capital)] + Capitalised(words[1..])
  }

  lemma {:induction false} CapitalisedAt(words: seq<string>, i: nat)
    requires i < |words|
    ensures Capitalised(words)[i] == Cased(words[i], Capital)
  {
    hide Cased;
    if i > 0 {
      CapitalisedAt(words[1..], i - 1);
    }
  }

  function Pascal(words: seq<string>): string {
    Concat(Capitalised(words))
  }

  function Camel(words: seq<string>): string {
    if words == [] then "" else words[0] + Pascal(words[1..])
  }

  /** Nothing shows where one single letter ends and the next begins: the words that the
      conversion can still see. */
  function Merged(words: seq<string>): (merged: seq<string>)
    ensures words != [] ==> merged != []
    ensures |merged| <= |words|
  {
    if |words| <= 1 then words
    else
      var rest := Merged(words[1..]);
      if |words[0]| == |words[1]| == 1 then [words[0] + rest[0]] + rest[1..] else [words[0]] + rest
  }

  /** Two words of one letter follow each other. */
  predicate LetterPair(words: seq<string>) {
    exists i | 0 < i < |words| :: |words[i - 1]| == |words[i]| == 1
  }

  lemma {:induction false} MergedIffPair(words: seq<string>)
    ensures |Merged(words)| == |words| <==> !LetterPair(words)
    ensures !LetterPair(words) ==> Merged(words) == words
  {
    if |words| > 1 {
      var rest := words[1..];
      MergedIffPair(rest);
      forall i | 0 < i < |rest| ensures words[i + 1] == rest[i] && words[i] == rest[i - 1] {
      }
      assert LetterPair(words) <==> |words[0]| == |words[1]| == 1 || LetterPair(rest) by {
        if i :| 0 < i < |words| && |words[i - 1]| == |words[i]| == 1 && i > 1 {
          assert 0 < i - 1 < |rest| && |rest[i - 1 - 1]| == |rest[i - 1]| == 1;
        }
        if i :| 0 < i < |rest| && |rest[i - 1]| == |rest[i]| == 1 {
          assert |words[i + 1 - 1]| == |words[i + 1]| == 1;
        }
      }
    }
  }

  lemma {:induction false} MergedClean(words: seq<string>)
    requires AllClean(words)
    ensures AllClean(Merged(words))
  {
    if |words| > 1 {
      MergedClean(words[1..]);
    }
  }

  lemma {:induction false} LowerMerged(words: seq<string>)
    ensures LowerAll(Merged(words)) == Merged(LowerAll(words))
  {
    if |words| > 1 {
      var rest := Merged(words[1..]);
      LowerMerged(words[1..]);
      LowerChars(words[0]);
      LowerChars(words[1]);
      LowerConcat(words[0], rest[0]);
      assert LowerAll(words)[1..] == LowerAll(words[1..]);
      assert ([words[0] + rest[0]] + rest[1..])[1..] == rest[1..];
      assert ([words[0]] + rest)[1..] == rest;
    }
  }

  lemma JoinCons(first: string, rest: seq<string>)
    requires rest != []
    ensures Join([first] + rest, "_") == first + ("_" + Join(rest, "_"))
  {
    assert ([first] + rest)[1..] == rest;
  }

  lemma JoinGlued(first: string, rest: seq<string>)
    requires rest != []
    ensures Join([first + rest[0]] + rest[1..], "_") == first + Join(rest, "_")
  {
    assert ([first + rest[0]] + rest[1..])[1..] == rest[1..];
    if |rest| > 1 {
      Associative(first, rest[0], "_");
      Associative(first, rest[0] + "_", Join(rest[1..], "_"));
    }
  }

  /** What comes between two words next to each other. */
  function Gap(word: string, next: string): string {
    if |word| == |next| == 1 then "" else "_"
  }

  lemma JoinMerged(words: seq<string>)
    requires |words| > 1
    ensures Join(Merged(words), "_") == words[0] + (Gap(words[0], words[1]) + Join(Merged(words[1..]), "_"))
  {
    var rest := Merged(words[1..]);
    if |words[0]| == |words[1]| == 1 {
      JoinGlued(words[0], rest);
      assert "" + Join(rest, "_") == Join(rest, "_");
    } else {
      JoinCons(words[0], rest);
    }
  }

  /** The mark in front of a Pascal-case name that comes after `p`. */
  function Front(p: char, words: seq<string>): string {
    if words != [] && (LD(p) || (U(p) && |words[0]| > 1)) then "_" else ""
  }

  /** The words that show in a Pascal-case name, joined. */
  function Shown(words: seq<string>): string {
    Join(Merged(Capitalised(words)), "_")
  }

  /** The marks in a Pascal-case name are where its words, the merged ones, begin. */
  lemma {:induction false} MarkPascal(p: char, words: seq<string>)
    requires AllWords(words)
    ensures Mark(p, Pascal(words), ' ') == Front(p, words) + Shown(words)
    ensures !L(First(Pascal(words), ' '))
    decreases |words|
  {
    if words != [] {
      var word, rest := Cased(words[0], Capital), Pascal(words[1..]);
      var last := Last(p, word);
      assert Pascal(words) == word + rest by { assert Capitalised(words)[1..] == Capitalised(words[1..]); }
      MarkPascal(last, words[1..]);
      MarkConcat(p, word, rest, ' ');
      MarkCapitalised(p, words[0], First(rest, ' '));
      ShownStep(words, last);
      hide Mark, Shown;
      Associative(Front(p, words), word, Front(last, words[1..]) + Shown(words[1..]));
    }
  }

  lemma ShownStep(words: seq<string>, last: char)
    requires AllWords(words) && words != []
    requires if |words[0]| > 1 then L(last) else U(last)
    ensures Shown(words) == Cased(words[0], Capital) + (Front(last, words[1..]) + Shown(words[1..]))
  {
    var names := Capitalised(words);
    assert names[1..] == Capitalised(words[1..]);
    if |words| > 1 {
      JoinMerged(names);
      assert Gap(names[0], names[1]) == Front(last, words[1..]);
    } else {
      assert Shown(words) == names[0] && Shown(words[1..]) == "";
      assert names[0] + ("" + "") == names[0];
    }
  }

  lemma LowerCapitalised(words: seq<string>)
    requires AllWords(words)
    ensures LowerAll(Capitalised(words)) == words && AllClean(Capitalised(words))
  {
    LowerAllWords(Capitalised(words));
    forall i | 0 <= i < |words| ensures Clean(Capitalised(words)[i]) && Lower(Capitalised(words)[i]) == words[i] {
      CapitalisedAt(words, i);
      CasedLetters(words[i], Capital);
    }
  }

  lemma AgreesIffNoPair(words: seq<string>, merged: seq<string>)
    requires AllClean(words) && AllClean(merged)
    ensures Join(merged, "_") == Join(words, "_") <==> merged == words
  {
    WordsOfJoin(words, '_');
    WordsOfJoin(merged, '_');
  }

  /** A Pascal-case name comes out as its words joined, if no two words of one letter follow
      each other, and only then: adjacent letters become one word. */
  lemma {:induction false} PascalAgreesIffNoLetterPair(words: seq<string>)
    requires AllWords(words)
    ensures ToSnakeCase(Pascal(words)) == Join(Merged(words), "_")
    ensures ToSnakeCase(Pascal(words)) == Join(words, "_") <==> !LetterPair(words)
  {
    var merged := Merged(Capitalised(words));
    MarkPascal(' ', words);
    assert "" + Join(merged, "_") == Join(merged, "_");
    LowerCapitalised(words);
    MergedClean(Capitalised(words));
    WordsOfJoin(merged, '_');
    ToSnakeCaseJoinsTokens(Pascal(words));
    LowerJoin(merged);
    LowerMerged(Capitalised(words));
    MergedAgrees(words);
  }

  lemma MergedAgrees(words: seq<string>)
    requires AllWords(words)
    ensures Join(Merged(words), "_") == Join(words, "_") <==> !LetterPair(words)
  {
    forall i | 0 <= i < |words| ensures Clean(words[i]) {
      CasedLetters(words[i], Small);
    }
    MergedClean(words);
    AgreesIffNoPair(words, Merged(words));
    MergedIffPair(words);
  }

  lemma MarkCamel(first: string, rest: seq<string>)
    requires Word(first) && AllWords(rest)
    ensures Mark(' ', first + Pascal(rest), ' ') == Join([first] + Merged(Capitalised(rest)), "_")
  {
    var merged := Merged(Capitalised(rest));
    MarkConcat(' ', first, Pascal(rest), ' ');
    MarkWithoutCapitals(' ', first, First(Pascal(rest), ' '));
    MarkPascal(Last(' ', first), rest);
    if rest != [] {
      JoinCons(first, merged);
    } else {
      assert first + ("" + "") == first;
    }
  }

  /** The same for camel case, where the first word is set apart by its own case. */
  lemma {:induction false} CamelAgreesIffNoLetterPair(words: seq<string>)
    requires AllWords(words) && words != []
    ensures ToSnakeCase(Camel(words)) == Join([words[0]] + Merged(words[1..]), "_")
    ensures ToSnakeCase(Camel(words)) == Join(words, "_") <==> !LetterPair(words[1..])
  {
    var first, rest := words[0], words[1..];
    var tokens := [first] + Merged(Capitalised(rest));
    MarkCamel(first, rest);
    LowerCapitalised(rest);
    MergedClean(Capitalised(rest));
    CasedLetters(first, Small);
    WordsOfJoin(tokens, '_');
    ToSnakeCaseJoinsTokens(Camel(words));
    LowerJoin(tokens);
    LowerMerged(Capitalised(rest));
    assert tokens[1..] == Merged(Capitalised(rest));
    CamelMergedAgrees(words);
  }

  lemma CamelMergedAgrees(words: seq<string>)
    requires AllWords(words) && words != []
    ensures Join([words[0]] + Merged(words[1..]), "_") == Join(words, "_") <==> !LetterPair(words[1..])
  {
    forall i | 0 <= i < |words| ensures Clean(words[i]) {
      CasedLetters(words[i], Small);
    }
    MergedClean(words[1..]);
    AgreesIffNoPair(words, [words[0]] + Merged(words[1..]));
    MergedIffPair(words[1..]);
    assert words == [words[0]] + words[1..];
    assert ([words[0]] + Merged(words[1..]))[1..] == Merged(words[1..]);
  }

  lemma CapitalLetter(c: char)
    requires L(c)
    ensures Cased([c], Capital) == [c - ' ']
  {
    var w := [c];
    assert w[..1] == w && w[1..] == "" && Upper("") == "";
  }

  lemma PascalPair(x: char, y: char)
    requires L(x) && L(y)
    ensures Pascal([[x], [y]]) == [x - ' ', y - ' ']
  {
    var names := Capitalised([[x], [y]]);
    CapitalLetter(x);
    CapitalLetter(y);
    assert [[x], [y]][1..] == [[y]] && Capitalised([[y]]) == [[y - ' ']];
    assert names == [[x - ' '], [y - ' ']];
    assert names[1..] == [[y - ' ']] && names[1..][1..] == [];
    assert Concat(names[1..]) == [y - ' '] + "" == [y - ' '];
    assert Concat(names) == [x - ' '] + [y - ' '];
  }

  lemma JoinPair(x: char, y: char)
    ensures Join([[x], [y]], "_") == [x, '_', y] && Join(Merged([[x], [y]]), "_") == [x, y]
  {
    assert [[x], [y]][1..] == [[y]];
    assert Merged([[x], [y]]) == [[x] + [y]] + [];
  }

  /** For instance any two letters: `XY`, from x and y, comes out as `xy`. */
  lemma LetterPairMerged(x: char, y: char)
    requires L(x) && L(y)
    ensures Pascal([[x], [y]]) == [x - ' ', y - ' ']
    ensures ToSnakeCase([x - ' ', y - ' ']) == [x, y] && Join([[x], [y]], "_") == [x, '_', y]
  {
    PascalPair(x, y);
    JoinPair(x, y);
    hide *;
    PascalAgreesIffNoLetterPair([[x], [y]]);
  }
}
