/** What `to_snake_case` promises (backend/quant/field_name_conversion.py): a canonical form
    that keeps the letters, and one form for all the naming conventions. */
module SnakeCaseLaws {
  import opened SnakeCase
  import opened Whitespace

  // ----- Words and joins

  /** A word: not empty, and without breaks. */
  predicate Clean(word: string) {
    word != "" && forall i | 0 <= i < |word| :: !In(Breaks, word[i])
  }

  predicate AllClean(words: seq<string>) {
    forall i | 0 <= i < |words| :: Clean(words[i])
  }

  predicate NoCapitals(s: string) {
    forall i | 0 <= i < |s| :: !U(s[i])
  }

  predicate NoneCapital(words: seq<string>) {
    forall i | 0 <= i < |words| :: NoCapitals(words[i])
  }

  lemma {:induction false} WordsAreClean(s: string)
    ensures AllClean(Words(s))
    decreases |s|
  {
    var t := Skip(s, Breaks);
    if t != "" {
      WordsAreClean(t[WordLength(t)..]);
    }
  }

  lemma {:induction false} LongestWord(word: string, rest: string)
    requires forall i | 0 <= i < |word| :: !In(Breaks, word[i])
    requires rest == "" || In(Breaks, rest[0])
    ensures WordLength(word + rest) == |word|
  {
    if word == "" {
      assert word + rest == rest;
    } else {
      assert (word + rest)[1..] == word[1..] + rest;
      LongestWord(word[1..], rest);
    }
  }

  lemma FirstWord(word: string, rest: string)
    requires Clean(word) && (rest == "" || In(Breaks, rest[0]))
    ensures Words(word + rest) == [word] + Words(rest)
  {
    var s := word + rest;
    LongestWord(word, rest);
    assert s[0] == word[0];
    assert s[..|word|] == word && s[|word|..] == rest;
  }

  /** Splitting undoes joining. */
  lemma {:induction false} WordsOfJoin(words: seq<string>, c: char)
    requires AllClean(words) && In(Breaks, c)
    ensures Words(Join(words, [c])) == words
  {
    if |words| == 1 {
      assert words[0] + "" == words[0];
      FirstWord(words[0], "");
    } else if words != [] {
      var rest := Join(words[1..], [c]);
      WordsOfJoin(words[1..], c);
      assert words[0] + [c] + rest == words[0] + ([c] + rest);
      FirstWord(words[0], [c] + rest);
      assert ([c] + rest)[1..] == rest;
    }
  }

  function LowerAll(words: seq<string>): (lower: seq<string>)
    ensures |lower| == |words|
  {
    if words == [] then [] else [Lower(words[0])] + LowerAll(words[1..])
  }

  lemma {:induction false} LowerConcat(s: string, t: string)
    ensures Lower(s + t) == Lower(s) + Lower(t)
  {
    if s == "" {
      assert s + t == t;
    } else {
      assert (s + t)[1..] == s[1..] + t;
      LowerConcat(s[1..], t);
    }
  }

  lemma {:induction false} LowerJoin(words: seq<string>)
    ensures Lower(Join(words, "_")) == Join(LowerAll(words), "_")
  {
    if |words| > 1 {
      LowerJoin(words[1..]);
      LowerConcat(words[0] + "_", Join(words[1..], "_"));
      LowerConcat(words[0], "_");
      assert Lower("_") == "_";
      assert LowerAll(words)[1..] == LowerAll(words[1..]);
    }
  }

  lemma {:induction false} LowerChars(s: string)
    ensures |Lower(s)| == |s| && forall i | 0 <= i < |s| :: Lower(s)[i] == LowerChar(s[i])
  {
    if s != "" {
      LowerChars(s[1..]);
    }
  }

  lemma {:induction false} LowerAllWords(words: seq<string>)
    ensures forall i | 0 <= i < |words| :: LowerAll(words)[i] == Lower(words[i])
  {
    if words != [] {
      LowerAllWords(words[1..]);
    }
  }

  /** The words of the snake-case name are the words of the name in lower case. */
  lemma LowerTokensAreClean(name: string)
    ensures var words := LowerAll(Tokens(name));
      && ToSnakeCase(name) == Join(words, "_")
      && AllClean(words)
      && NoneCapital(words)
  {
    ToSnakeCaseJoinsTokens(name);
    LowerJoin(Tokens(name));
    WordsAreClean(Mark(' ', name, ' '));
    LowerAllWords(Tokens(name));
    var words := LowerAll(Tokens(name));
    forall i | 0 <= i < |words| ensures Clean(words[i]) && NoCapitals(words[i]) {
      LowerIsClean(Tokens(name)[i]);
    }
  }

  lemma LowerIsClean(word: string)
    requires Clean(word)
    ensures Clean(Lower(word)) && NoCapitals(Lower(word))
  {
    LowerChars(word);
  }

  // ----- The canonical form

  /** No capital letter, hyphen, dot or white space; no underscore at either end, and no two in a
      row. */
  predicate Canonical(s: string) {
    && (forall i | 0 <= i < |s| :: !('A' <= s[i] <= 'Z') && s[i] != '-' && s[i] != '.' && !Space(s[i]))
    && (s != "" ==> s[0] != '_' && s[|s| - 1] != '_')
    && (forall i | 0 < i < |s| && s[i] == '_' :: s[i - 1] != '_')
  }

  lemma CanonicalConcat(word: string, rest: string)
    requires Clean(word) && NoCapitals(word)
    ensures Canonical(word)
    ensures Canonical(rest) && rest != "" ==> Canonical(word + "_" + rest)
  {
    var s := word + "_" + rest;
    forall i | 0 <= i < |word| ensures word[i] != '_' && !Separator(word[i]) && s[i] == word[i] {
      assert !In(Breaks, word[i]);
    }
    assert forall i | |word| < i < |s| :: s[i] == rest[i - |word| - 1];
  }

  lemma {:induction false} JoinIsCanonical(words: seq<string>)
    requires AllClean(words) && NoneCapital(words)
    ensures Canonical(Join(words, "_"))
    ensures words != [] ==> Join(words, "_") != ""
  {
    if words != [] {
      JoinIsCanonical(words[1..]);
      CanonicalConcat(words[0], Join(words[1..], "_"));
    }
  }

  lemma {:induction false} MarkWithoutCapitals(p: char, s: string, q: char)
    requires NoCapitals(s)
    ensures Mark(p, s, q) == s && Lower(s) == s
    decreases |s|
  {
    if s != "" {
      MarkWithoutCapitals(s[0], s[1..], q);
    }
  }

  lemma CanonicalTail(s: string, n: nat)
    requires Canonical(s) && n < |s| && In(Breaks, s[n])
    ensures s[n] == '_' && n + 1 < |s| && !In(Breaks, s[n + 1]) && Canonical(s[n + 1..])
  {
    var rest := s[n + 1..];
    if n + 1 < |s| && s[n + 1] == '_' {
      assert false;
    }
    assert forall i | 0 <= i < |rest| :: rest[i] == s[n + 1 + i];
  }

  lemma {:induction false} CanonicalIsJoined(s: string)
    requires Canonical(s)
    ensures Join(Words(s), "_") == s
    decreases |s|
  {
    if s != "" {
      var n := WordLength(s);
      assert !In(Breaks, s[0]);
      hide Space;
      if n == |s| {
        assert s[..n] == s && Words(s) == [s];
      } else {
        CanonicalTail(s, n);
        var word, rest := s[..n], s[n + 1..];
        CanonicalIsJoined(rest);
        assert s[n..][1..] == rest && Skip(s[n..], Breaks) == rest;
        assert Words(s) == [word] + Words(rest);
        assert s == word + "_" + rest;
      }
    }
  }

  /** The canonical names are exactly the names that the conversion leaves alone. */
  lemma FixedIffCanonical(name: string)
    ensures ToSnakeCase(name) == name <==> Canonical(name)
  {
    LowerTokensAreClean(name);
    JoinIsCanonical(LowerAll(Tokens(name)));
    if Canonical(name) {
      ToSnakeCaseJoinsTokens(name);
      MarkWithoutCapitals(' ', name, ' ');
      CanonicalIsJoined(name);
    }
  }

  /** Every result is canonical, and converting it again changes nothing. */
  lemma ResultIsCanonical(name: string)
    ensures Canonical(ToSnakeCase(name))
    ensures ToSnakeCase(ToSnakeCase(name)) == ToSnakeCase(name)
  {
    LowerTokensAreClean(name);
    JoinIsCanonical(LowerAll(Tokens(name)));
    FixedIffCanonical(ToSnakeCase(name));
  }

  // ----- What is kept

  /** Hyphens, dots, underscores and white space. */
  predicate Dropped(c: char) {
    c == '-' || c == '.' || c == '_' || Space(c)
  }

  /** The other characters, in order. */
  function Kept(s: string): string {
    if s == "" then "" else (if Dropped(s[0]) then "" else [s[0]]) + Kept(s[1..])
  }

  lemma {:induction false} KeptConcat(s: string, t: string)
    ensures Kept(s + t) == Kept(s) + Kept(t)
  {
    if s == "" {
      assert s + t == t;
    } else {
      assert (s + t)[1..] == s[1..] + t;
      KeptConcat(s[1..], t);
    }
  }

  lemma {:induction false} KeptOfClean(word: string)
    requires forall i | 0 <= i < |word| :: !In(Breaks, word[i])
    ensures Kept(word) == word
  {
    if word != "" {
      KeptOfClean(word[1..]);
    }
  }

  lemma KeptCons(c: char, rest: string)
    ensures Kept([c] + rest) == (if In(Breaks, c) then "" else [c]) + Kept(rest)
  {
    assert ([c] + rest)[1..] == rest;
  }

  lemma {:induction false} KeptMark(p: char, s: string, q: char)
    ensures Kept(Mark(p, s, q)) == Kept(s)
    decreases |s|
  {
    if s != "" {
      var c, rest := s[0], Mark(s[0], s[1..], q);
      KeptMark(c, s[1..], q);
      KeptCons(c, rest);
      KeptCons('_', [c] + rest);
      assert "" + Kept([c] + rest) == Kept([c] + rest);
    }
  }

  lemma {:induction false} KeptSkip(s: string)
    ensures Kept(Skip(s, Breaks)) == Kept(s)
  {
    if s != "" && In(Breaks, s[0]) {
      KeptSkip(s[1..]);
    }
  }

  lemma {:induction false} KeptWords(s: string)
    ensures Kept(Join(Words(s), "_")) == Kept(s)
    decreases |s|
  {
    var t := Skip(s, Breaks);
    KeptSkip(s);
    if t != "" {
      var word, rest := t[..WordLength(t)], t[WordLength(t)..];
      KeptWords(rest);
      KeptConcat(word, rest);
      assert t == word + rest;
      if Words(rest) != [] {
        KeptConcat(word + "_", Join(Words(rest), "_"));
        KeptConcat(word, "_");
        assert Kept("_") == "" && Kept(word) + "" == Kept(word);
      }
    }
  }

  lemma {:induction false} KeptLower(s: string)
    ensures Kept(Lower(s)) == Lower(Kept(s))
  {
    if s != "" {
      var c, rest := s[0], s[1..];
      KeptLower(rest);
      KeptCons(LowerChar(c), Lower(rest));
      assert In(Breaks, LowerChar(c)) <==> In(Breaks, c);
      assert "" + Kept(rest) == Kept(rest) && "" + Kept(Lower(rest)) == Kept(Lower(rest));
      assert ([c] + Kept(rest))[1..] == Kept(rest);
    }
  }

  lemma {:induction false} LowerIs(s: string, i: nat)
    requires i < |s|
    ensures |Lower(s)| == |s|
    ensures Lower(s)[i] == if 'A' <= s[i] <= 'Z' then (s[i] as int - 'A' as int + 'a' as int) as char else s[i]
  {
    LowerChars(s);
  }

  /** The conversion keeps all characters but hyphens, dots, underscores and white space, in order
      and in lower case. */
  lemma {:induction false} CharactersKept(name: string)
    ensures Kept(ToSnakeCase(name)) == Lower(Kept(name))
  {
    ToSnakeCaseJoinsTokens(name);
    KeptLower(Join(Tokens(name), "_"));
    KeptWords(Mark(' ', name, ' '));
    KeptMark(' ', name, ' ');
  }
}
