/** Building and reading command lines. `Join` is Ruby's `join(" ")`, which
    the CLI uses to pass service lists and ad-hoc commands on; `Words` splits a
    command line into its blank-separated words. The command strings of the
    CLI are defined by interpolation, and their meaning is stated as those
    words. `Words` splits at ' ' only: tabs, quoting and operators such as
    `&&`, `>>` or `&>/dev/null` are not interpreted and stay ordinary words. */
module Text {

  /** Ruby's `xs.join(" ")`. */
  function Join(xs: seq<string>): string {
    if xs == [] then ""
    else if |xs| == 1 then xs[0]
    else Join(xs[..|xs| - 1]) + " " + xs[|xs| - 1]
  }

  /** The part of `s` before its first `sep` (all of `s` if it has none). */
  function UpTo(s: string, sep: char): (w: string)
    ensures sep !in w
    ensures w <= s
    ensures |w| == |s| || s[|w|] == sep
  {
    if s == [] || s[0] == sep then [] else [s[0]] + UpTo(s[1..], sep)
  }

  /** The leading word of `s`: everything before the first blank. */
  function Token(s: string): string {
    UpTo(s, ' ')
  }

  /** The blank-separated words of `s`: maximal runs of characters other
      than ' ', in order. */
  function Words(s: string): (ws: seq<string>)
    ensures forall i | 0 <= i < |ws| :: ws[i] != [] && ' ' !in ws[i]
    decreases |s|
  {
    if s == [] then []
    else if s[0] == ' ' then Words(s[1..])
    else
      var w := Token(s);
      assert w != [] by { assert s[0] != ' '; }
      [w] + Words(s[|w|..])
  }

  /** The words of every element of `xs`, one after the other. */
  function AllWords(xs: seq<string>): (ws: seq<string>)
    ensures forall i | 0 <= i < |ws| :: ws[i] != [] && ' ' !in ws[i]
  {
    if xs == [] then [] else AllWords(xs[..|xs| - 1]) + Words(xs[|xs| - 1])
  }

  lemma TokenBeforeBlank(a: string, b: string)
    ensures Token(a + " " + b) == Token(a)
  {
    var s := a + " " + b;
    var c, t := Token(s), Token(a);
    assert s[|a|] == ' ';
    assert forall i | 0 <= i < |a| :: s[i] == a[i];
    assert c == s[..|c|] == a[..|t|] == t;
  }

  /** Blanks separate words: the words of `a + " " + b` are those of `a`
      followed by those of `b`. */
  lemma {:induction false} WordsOfSpaced(a: string, b: string)
    ensures Words(a + " " + b) == Words(a) + Words(b)
    decreases |a|
  {
    var s := a + " " + b;
    if a == [] {
      assert s[1..] == b;
    } else if a[0] == ' ' {
      assert s[1..] == a[1..] + " " + b;
      WordsOfSpaced(a[1..], b);
    } else {
      var w := Token(a);
      TokenBeforeBlank(a, b);
      assert w != [] by { assert a[0] != ' '; }
      assert s[|w|..] == a[|w|..] + " " + b;
      WordsOfSpaced(a[|w|..], b);
    }
  }

  /** A non-empty string without blanks is one word. */
  lemma {:induction false} WordsOfWord(w: string)
    requires w != [] && ' ' !in w
    ensures Words(w) == [w]
  {
    assert w[0] != ' ';
    var t := Token(w);
    assert t == w;
    assert w[|t|..] == [];
  }

  /** Joining with blanks and splitting again gives the words of every
      element, in order. */
  lemma {:induction false} WordsOfJoin(xs: seq<string>)
    ensures Words(Join(xs)) == AllWords(xs)
  {
    if xs == [] {
    } else if |xs| == 1 {
      assert xs[..0] == [];
    } else {
      var init := xs[..|xs| - 1];
      WordsOfJoin(init);
      WordsOfSpaced(Join(init), xs[|xs| - 1]);
    }
  }

  /** Elements that are single words come back unchanged. */
  lemma {:induction false} AllWordsOfWords(xs: seq<string>)
    requires forall i | 0 <= i < |xs| :: xs[i] != [] && ' ' !in xs[i]
    ensures AllWords(xs) == xs
  {
    if xs != [] {
      AllWordsOfWords(xs[..|xs| - 1]);
      WordsOfWord(xs[|xs| - 1]);
      assert xs[..|xs| - 1] + [xs[|xs| - 1]] == xs;
    }
  }

  /** Two words separated by a blank. */
  lemma TwoWords(a: string, b: string)
    requires a != [] && ' ' !in a && b != [] && ' ' !in b
    ensures Words(a + " " + b) == [a, b]
  {
    WordsOfSpaced(a, b);
    WordsOfWord(a);
    WordsOfWord(b);
  }

  /** One more word after a blank. */
  lemma WordsThenWord(a: string, w: string)
    requires w != [] && ' ' !in w
    ensures Words(a + " " + w) == Words(a) + [w]
  {
    WordsOfSpaced(a, w);
    WordsOfWord(w);
  }

  lemma ThreeWords(a: string, b: string, c: string)
    requires a != [] && ' ' !in a && b != [] && ' ' !in b && c != [] && ' ' !in c
    ensures Words(a + " " + b + " " + c) == [a, b, c]
  {
    TwoWords(a, b);
    WordsThenWord(a + " " + b, c);
  }

  lemma FourWords(a: string, b: string, c: string, d: string)
    requires a != [] && ' ' !in a && b != [] && ' ' !in b
    requires c != [] && ' ' !in c && d != [] && ' ' !in d
    ensures Words(a + " " + b + " " + c + " " + d) == [a, b, c, d]
  {
    ThreeWords(a, b, c);
    WordsThenWord(a + " " + b + " " + c, d);
  }
}
