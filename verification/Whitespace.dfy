/** White space as Python's `str.strip` and the `\s` of its regular expressions know it. */
module Whitespace {
  predicate Space(c: char) {
    || '\t' <= c <= '\r'
    || '\U{001C}' <= c <= ' '
    || c in {'\U{0085}', '\U{00A0}', '\U{1680}', '\U{2028}', '\U{2029}', '\U{202F}', '\U{205F}', '\U{3000}'}
    || '\U{2000}' <= c <= '\U{200A}'
  }

  /** The code points of the 29 characters. */
  lemma SpaceCodes(c: char)
    ensures Space(c) <==>
      var n := c as int;
      || 9 <= n <= 13 || 28 <= n <= 32 || n == 133 || n == 160 || n == 5760 || 8192 <= n <= 8202
      || n == 8232 || n == 8233 || n == 8239 || n == 8287 || n == 12288
  {
  }

  function LStrip(s: string): string {
    if s != "" && Space(s[0]) then LStrip(s[1..]) else s
  }

  function RStrip(s: string): string {
    if s != "" && Space(s[|s| - 1]) then RStrip(s[..|s| - 1]) else s
  }

  function Strip(s: string): string {
    RStrip(LStrip(s))
  }

  predicate Blank(s: string) {
    forall c | c in s :: Space(c)
  }

  lemma {:induction false} LStripPast(s: string, t: string)
    requires t != "" && !Space(t[0])
    ensures LStrip(s + t) == LStrip(s) + t
  {
    if s == "" {
      assert s + t == t;
    } else {
      assert (s + t)[1..] == s[1..] + t;
      if Space(s[0]) {
        LStripPast(s[1..], t);
      }
    }
  }

  lemma {:induction false} RStripPast(s: string, t: string)
    requires s != "" && !Space(s[|s| - 1])
    ensures RStrip(s + t) == s + RStrip(t)
    decreases |t|
  {
    if t == "" {
      assert s + t == s;
    } else {
      assert (s + t)[..|s + t| - 1] == s + t[..|t| - 1];
      if Space(t[|t| - 1]) {
        RStripPast(s, t[..|t| - 1]);
      }
    }
  }

  /** The number of characters that are not white space. */
  function Ink(s: string): nat {
    if s == "" then 0 else Ink(s[..|s| - 1]) + if Space(s[|s| - 1]) then 0 else 1
  }

  lemma {:induction false} InkConcat(s: string, t: string)
    ensures Ink(s + t) == Ink(s) + Ink(t)
    decreases |t|
  {
    if t == "" {
      assert s + t == s;
    } else {
      assert (s + t)[..|s + t| - 1] == s + t[..|t| - 1];
      InkConcat(s, t[..|t| - 1]);
    }
  }

  lemma {:induction false} BlankIffNoInk(s: string)
    ensures Blank(s) <==> Ink(s) == 0
  {
    if s != "" {
      BlankIffNoInk(s[..|s| - 1]);
      assert s == s[..|s| - 1] + [s[|s| - 1]];
    }
  }

  lemma {:induction false} LStripKeeps(s: string)
    ensures Ink(LStrip(s)) == Ink(s)
    ensures forall c :: c in LStrip(s) ==> c in s
    ensures forall c :: c in s && !Space(c) ==> c in LStrip(s)
  {
    if s != "" && Space(s[0]) {
      LStripKeeps(s[1..]);
      assert s == [s[0]] + s[1..];
      InkConcat([s[0]], s[1..]);
    }
  }

  lemma {:induction false} RStripKeeps(s: string)
    ensures Ink(RStrip(s)) == Ink(s)
    ensures forall c :: c in RStrip(s) ==> c in s
    ensures forall c :: c in s && !Space(c) ==> c in RStrip(s)
  {
    if s != "" && Space(s[|s| - 1]) {
      RStripKeeps(s[..|s| - 1]);
    }
  }

  /** Stripping removes white space only. */
  lemma StripKeeps(s: string)
    ensures Ink(Strip(s)) == Ink(s)
    ensures forall c :: c in Strip(s) ==> c in s
    ensures forall c :: c in s && !Space(c) ==> c in Strip(s)
  {
    LStripKeeps(s);
    RStripKeeps(LStrip(s));
  }

  lemma {:induction false} RStripBlank(s: string)
    requires Blank(s)
    ensures RStrip(s) == ""
  {
    if s != "" {
      RStripBlank(s[..|s| - 1]);
    }
  }

  lemma {:induction false} StripRStrip(s: string)
    ensures Strip(RStrip(s)) == Strip(s)
  {
    if s == "" {
    } else if Space(s[|s| - 1]) {
      var front := s[..|s| - 1];
      StripRStrip(front);
      assert s == front + [s[|s| - 1]];
      StripSpaceAfter(front, s[|s| - 1]);
    }
  }

  lemma {:induction false} StripSpaceAfter(s: string, c: char)
    requires Space(c)
    ensures Strip(s + [c]) == Strip(s)
  {
    if s == "" {
      assert s + [c] == [c];
    } else if Space(s[0]) {
      assert (s + [c])[1..] == s[1..] + [c];
      StripSpaceAfter(s[1..], c);
    } else {
      assert (s + [c])[..|s|] == s;
    }
  }

  lemma {:induction false} StripBlankBefore(s: string, t: string)
    requires Blank(s)
    ensures Strip(s + t) == Strip(t)
  {
    if s == "" {
      assert s + t == t;
    } else {
      assert (s + t)[1..] == s[1..] + t;
      StripBlankBefore(s[1..], t);
    }
  }
}
