/**
 * The name of the audio file a synthesis is written to: a timestamp, then
 * "__" and the first five space-separated pieces of the text joined by "_"
 * (only when the first piece is non-empty), then ".mp3".
 */
module AudioFile {

  /** Python's `str.split(" ")`: cuts at every single space and keeps empty pieces. */
  function Split(text: string): (pieces: seq<string>)
    ensures |pieces| >= 1
    ensures forall i :: 0 <= i < |pieces| ==> ' ' !in pieces[i]
  {
    if text == [] then [""]
    else
      var rest := Split(text[1..]);
      if text[0] == ' ' then [""] + rest
      else [[text[0]] + rest[0]] + rest[1..]
  }

  /** Python's `sep.join(pieces)`. */
  function Join(sep: string, pieces: seq<string>): (r: string)
    ensures pieces == [] ==> r == ""
    ensures pieces != [] ==> pieces[0] <= r
  {
    if |pieces| == 0 then ""
    else if |pieces| == 1 then pieces[0]
    else pieces[0] + sep + Join(sep, pieces[1..])
  }

  /** Python's slice `pieces[:n]`. */
  function Take(pieces: seq<string>, n: nat): (r: seq<string>)
    ensures |r| == (if |pieces| < n then |pieces| else n)
    ensures r <= pieces
  {
    if |pieces| <= n then pieces else pieces[..n]
  }

  const WordLimit: nat := 5
  const Extension: string := ".mp3"

  /** The file name for `text` synthesized at `timestamp` (already formatted as `%Y%m%dT%H%M%S`). */
  function AudioFileName(timestamp: string, text: string): (name: string)
    ensures |name| >= |timestamp| + |Extension|
    ensures name[..|timestamp|] == timestamp
    ensures name[|name| - |Extension|..] == Extension
  {
    var words := Split(text);
    var stem := if words[0] != "" then timestamp + "__" + Join("_", Take(words, WordLimit)) else timestamp;
    stem + Extension
  }

  /** Joining the pieces with single spaces gives the text back. */
  lemma {:induction false} JoinSplit(text: string)
    ensures Join(" ", Split(text)) == text
  {
    if text != [] {
      var rest := Split(text[1..]);
      JoinSplit(text[1..]);
      if text[0] != ' ' {
        JoinHead([text[0]], rest[0], rest[1..], " ");
        assert [rest[0]] + rest[1..] == rest;
      }
    }
  }

  /** Prepending to the first piece prepends to the joined string. */
  lemma JoinHead(c: string, first: string, others: seq<string>, sep: string)
    ensures Join(sep, [c + first] + others) == c + Join(sep, [first] + others)
  {
    assert ([c + first] + others)[1..] == others;
    assert ([first] + others)[1..] == others;
  }

  /** The first piece is empty exactly when the text is empty or starts with a space. */
  lemma FirstPieceEmpty(text: string)
    ensures Split(text)[0] == "" <==> text == [] || text[0] == ' '
  {
  }

  /** `text` with every space written as an underscore. */
  function Underscored(s: string): (r: string)
    ensures |r| == |s|
    ensures forall i :: 0 <= i < |s| ==> r[i] == (if s[i] == ' ' then '_' else s[i])
  {
    if s == [] then [] else [if s[0] == ' ' then '_' else s[0]] + Underscored(s[1..])
  }

  /** The prefix of `text` that ends just before its `n`-th space, or all of `text` if it has fewer spaces. */
  function BeforeNthSpace(text: string, n: nat): (r: string)
    requires n >= 1
    ensures r <= text
    ensures |r| == |text| || text[|r|] == ' '
    ensures Spaces(r) == (if Spaces(text) < n then Spaces(text) else n - 1)
    ensures |r| < |text| <==> Spaces(text) >= n
  {
    if text == [] then []
    else if text[0] == ' ' then
      if n == 1 then []
      else
        var rest := BeforeNthSpace(text[1..], n - 1);
        assert ([' '] + rest)[1..] == rest;
        [' '] + rest
    else
      var rest := BeforeNthSpace(text[1..], n);
      assert ([text[0]] + rest)[1..] == rest;
      [text[0]] + rest
  }

  /** The number of spaces in `s`. */
  function Spaces(s: string): nat
  {
    if s == [] then 0 else (if s[0] == ' ' then 1 else 0) + Spaces(s[1..])
  }

  lemma TakeCons(first: string, others: seq<string>, n: nat)
    requires n >= 1
    ensures Take([first] + others, n) == [first] + Take(others, n - 1)
  {
  }

  lemma UnderscoredCons(c: char, s: string)
    ensures Underscored([c] + s) == [if c == ' ' then '_' else c] + Underscored(s)
  {
    assert ([c] + s)[1..] == s;
  }

  /** The first `n` pieces joined by "_" are the text up to its `n`-th space, spaces turned into "_". */
  lemma {:induction false} JoinTakeSplit(text: string, n: nat)
    requires n >= 1
    ensures Join("_", Take(Split(text), n)) == Underscored(BeforeNthSpace(text, n))
  {
    if text != [] {
      if text[0] == ' ' {
        if n > 1 {
          JoinTakeSplit(text[1..], n - 1);
          JoinTakeSplitSpace(text, n);
        }
      } else {
        JoinTakeSplit(text[1..], n);
        JoinTakeSplitChar(text, n);
      }
    }
  }

  /** The step of JoinTakeSplit for a text that starts with a space. */
  lemma JoinTakeSplitSpace(text: string, n: nat)
    requires text != [] && text[0] == ' ' && n > 1
    requires Join("_", Take(Split(text[1..]), n - 1)) == Underscored(BeforeNthSpace(text[1..], n - 1))
    ensures Join("_", Take(Split(text), n)) == Underscored(BeforeNthSpace(text, n))
  {
    var rest := Split(text[1..]);
    TakeCons("", rest, n);
    var t := Take(rest, n - 1);
    assert ([""] + t)[1..] == t;
    UnderscoredCons(' ', BeforeNthSpace(text[1..], n - 1));
  }

  /** The step of JoinTakeSplit for a text that starts with another character. */
  lemma JoinTakeSplitChar(text: string, n: nat)
    requires text != [] && text[0] != ' ' && n >= 1
    requires Join("_", Take(Split(text[1..]), n)) == Underscored(BeforeNthSpace(text[1..], n))
    ensures Join("_", Take(Split(text), n)) == Underscored(BeforeNthSpace(text, n))
  {
    var rest := Split(text[1..]);
    TakeCons([text[0]] + rest[0], rest[1..], n);
    TakeCons(rest[0], rest[1..], n);
    assert [rest[0]] + rest[1..] == rest;
    JoinHead([text[0]], rest[0], Take(rest[1..], n - 1), "_");
    UnderscoredCons(text[0], BeforeNthSpace(text[1..], n));
  }

  /** The file name spelled out: the timestamp, the word part when the text does not start with a space, ".mp3". */
  lemma AudioFileNameCases(timestamp: string, text: string)
    ensures AudioFileName(timestamp, text) ==
            if text == [] || text[0] == ' ' then timestamp + Extension
            else timestamp + "__" + Underscored(BeforeNthSpace(text, WordLimit)) + Extension
  {
    FirstPieceEmpty(text);
    JoinTakeSplit(text, WordLimit);
  }

  lemma {:induction false} SplitWord(w: string, rest: string)
    requires ' ' !in w
    ensures Split(w + " " + rest) == [w] + Split(rest)
  {
    if w == [] {
      assert w + " " + rest == " " + rest;
    } else {
      assert (w + " " + rest)[1..] == w[1..] + " " + rest;
      SplitWord(w[1..], rest);
      assert [w[0]] + w[1..] == w;
    }
  }

  lemma {:induction false} SplitLastWord(w: string)
    requires ' ' !in w
    ensures Split(w) == [w]
  {
    if w != [] {
      SplitLastWord(w[1..]);
      assert [w[0]] + w[1..] == w;
    }
  }

  /** Pieces without spaces, joined by single spaces, split back into the same pieces. */
  lemma {:induction false} SplitJoin(pieces: seq<string>)
    requires |pieces| >= 1
    requires forall i :: 0 <= i < |pieces| ==> ' ' !in pieces[i]
    ensures Split(Join(" ", pieces)) == pieces
  {
    if |pieces| == 1 {
      SplitLastWord(pieces[0]);
    } else {
      SplitJoin(pieces[1..]);
      SplitWord(pieces[0], Join(" ", pieces[1..]));
      assert [pieces[0]] + pieces[1..] == pieces;
    }
  }

  /** Text made of words: the name keeps the first five of them, joined by "_". */
  lemma FileNameOfWords(timestamp: string, words: seq<string>)
    requires |words| >= 1 && words[0] != ""
    requires forall i :: 0 <= i < |words| ==> ' ' !in words[i]
    ensures AudioFileName(timestamp, Join(" ", words)) ==
            timestamp + "__" + Join("_", Take(words, WordLimit)) + Extension
  {
    SplitJoin(words);
  }

  /** Six pieces joined by spaces, spelled out. */
  lemma JoinSix(a: string, b: string, c: string, d: string, e: string, f: string)
    ensures Join(" ", [a, b, c, d, e, f]) == a + " " + b + " " + c + " " + d + " " + e + " " + f
  {
    var w := [a, b, c, d, e, f];
    assert w[1..] == [b, c, d, e, f];
    assert w[2..] == [c, d, e, f];
    assert w[3..] == [d, e, f];
    assert w[4..] == [e, f];
    assert w[5..] == [f];
    assert Join(" ", w[4..]) == e + " " + f;
    assert Join(" ", w[3..]) == d + " " + e + " " + f;
    assert Join(" ", w[2..]) == c + " " + d + " " + e + " " + f;
    assert Join(" ", w[1..]) == b + " " + c + " " + d + " " + e + " " + f;
  }

  lemma ExampleText(words: seq<string>)
    requires words == ["Hello", "world", "this", "is", "a", "test"]
    ensures Join(" ", words) == "Hello world this is a test"
  {
    JoinSix("Hello", "world", "this", "is", "a", "test");
  }

  lemma ExampleKept(words: seq<string>)
    requires words == ["Hello", "world", "this", "is", "a", "test"]
    ensures Join("_", Take(words, WordLimit)) == "Hello_world_this_is_a"
  {
    var kept := Take(words, WordLimit);
    assert kept == ["Hello", "world", "this", "is", "a"];
    assert kept[1..] == ["world", "this", "is", "a"];
    assert kept[2..] == ["this", "is", "a"];
    assert kept[3..] == ["is", "a"];
    assert kept[4..] == ["a"];
    assert Join("_", kept[3..]) == "is_a";
    assert Join("_", kept[2..]) == "this_is_a";
    assert Join("_", kept[1..]) == "world_this_is_a";
  }

  /** The words of "Hello world this is a test": the name keeps the five words "Hello" to "a". */
  lemma HelloWorldExample(timestamp: string, words: seq<string>)
    requires words == ["Hello", "world", "this", "is", "a", "test"]
    ensures Join(" ", words) == "Hello world this is a test"
    ensures AudioFileName(timestamp, Join(" ", words)) == timestamp + "__" + "Hello_world_this_is_a" + ".mp3"
  {
    ExampleText(words);
    FileNameOfWords(timestamp, words);
    ExampleKept(words);
  }
}
