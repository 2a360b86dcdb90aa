/** Splitting a text into words on any class of break characters, and splitting it finer. */
module Splitting {
  import opened Text

  type Breaks = char -> bool

  /**
   The words once a character has been read in front of them: it is a break, joins the first
   word, or is a word of its own.
   */
  function Glue(c: char, isBreak: bool, joins: bool, words: seq<string>): seq<string> {
    if isBreak then words
    else if joins && words != [] then [[c] + words[0]] + words[1..]
    else [[c]] + words
  }

  /** Maximal runs of characters that are not breaks, as `str.split()` returns them. */
  function Words(text: string, breaks: Breaks): seq<string> {
    if text == "" then []
    else Glue(text[0], breaks(text[0]), |text| > 1 && !breaks(text[1]), Words(text[1..], breaks))
  }

  predicate Free(word: string, breaks: Breaks) {
    forall i | 0 <= i < |word| :: !breaks(word[i])
  }

  predicate Only(word: string, breaks: Breaks) {
    forall i | 0 <= i < |word| :: breaks(word[i])
  }

  predicate AllFree(words: seq<string>, breaks: Breaks) {
    forall k | 0 <= k < |words| :: words[k] != "" && Free(words[k], breaks)
  }

  /** Words are non-empty and free of breaks, and a text that starts inside a word starts its first word. */
  lemma {:induction false} WordsAreFree(text: string, breaks: Breaks)
    ensures AllFree(Words(text, breaks), breaks)
    ensures text != "" && !breaks(text[0]) ==> Words(text, breaks) != [] && Words(text, breaks)[0][0] == text[0]
  {
    if text != "" {
      WordsAreFree(text[1..], breaks);
      var rest := Words(text[1..], breaks);
      if !breaks(text[0]) && rest != [] {
        assert Free([text[0]] + rest[0], breaks);
      }
    }
  }

  /** Putting a character in front of a non-empty text. */
  lemma PutInFront(c: char, text: string, breaks: Breaks)
    requires text != ""
    ensures Words([c] + text, breaks) == Glue(c, breaks(c), !breaks(text[0]), Words(text, breaks))
  {
    assert ([c] + text)[1..] == text;
  }

  lemma GlueInFront(c: char, isBreak: bool, joins: bool, first: seq<string>, others: seq<string>)
    requires joins ==> first != []
    ensures Glue(c, isBreak, joins, first + others) == Glue(c, isBreak, joins, first) + others
  {
    if joins {
      assert (first + others)[0] == first[0] && (first + others)[1..] == first[1..] + others;
    }
  }

  /** Every word split again on another class, in order. */
  function Resplit(words: seq<string>, breaks: Breaks): seq<string> {
    if words == [] then [] else Words(words[0], breaks) + Resplit(words[1..], breaks)
  }

  ghost predicate Coarser(coarse: Breaks, fine: Breaks) {
    forall c :: coarse(c) ==> fine(c)
  }

  /** Splitting on more breaks at once is splitting on fewer first and then each word again. */
  lemma {:induction false} FineSplitRefinesCoarse(text: string, coarse: Breaks, fine: Breaks)
    requires Coarser(coarse, fine)
    ensures Words(text, fine) == Resplit(Words(text, coarse), fine)
  {
    if text != "" {
      var c, tail := text[0], text[1..];
      FineSplitRefinesCoarse(tail, coarse, fine);
      if coarse(c) {
        assert fine(c);
      } else if tail != "" && !coarse(tail[0]) {
        MergingRefines(c, tail, coarse, fine);
      } else {
        assert Words(text, coarse) == [[c]] + Words(tail, coarse);
        assert Words([c], fine) == if fine(c) then [] else [[c]];
        assert tail != "" ==> fine(tail[0]);
      }
    }
  }

  lemma ResplitCons(word: string, words: seq<string>, breaks: Breaks)
    ensures Resplit([word] + words, breaks) == Words(word, breaks) + Resplit(words, breaks)
  {
    assert ([word] + words)[1..] == words;
  }

  lemma MergingRefines(c: char, tail: string, coarse: Breaks, fine: Breaks)
    requires Coarser(coarse, fine) && !coarse(c) && tail != "" && !coarse(tail[0])
    requires Words(tail, fine) == Resplit(Words(tail, coarse), fine)
    ensures Words([c] + tail, fine) == Resplit(Words([c] + tail, coarse), fine)
  {
    var rest := Words(tail, coarse);
    WordsAreFree(tail, coarse);
    var head, others := rest[0], rest[1..];
    assert Words([c] + tail, coarse) == [[c] + head] + others by {
      PutInFront(c, tail, coarse);
    }
    ResplitCons([c] + head, others, fine);
    PrependingCommutes(c, tail, head, Resplit(others, fine), fine);
  }

  /** A character in front of a text goes in front of the text's first word. */
  lemma PrependingCommutes(c: char, tail: string, head: string, others: seq<string>, fine: Breaks)
    requires tail != "" && head != "" && head[0] == tail[0]
    requires Words(tail, fine) == Words(head, fine) + others
    ensures Words([c] + tail, fine) == Words([c] + head, fine) + others
  {
    PutInFront(c, tail, fine);
    PutInFront(c, head, fine);
    WordsAreFree(head, fine);
    GlueInFront(c, fine(c), !fine(tail[0]), Words(head, fine), others);
  }

  /** A word vanishes under the finer split exactly when it is all breaks, and stays whole when it has none. */
  lemma {:induction false} FineSplitOfWord(word: string, fine: Breaks)
    ensures Words(word, fine) == [] <==> Only(word, fine)
    ensures word != "" && Free(word, fine) ==> Words(word, fine) == [word]
  {
    if word != "" {
      var c, tail := word[0], word[1..];
      FineSplitOfWord(tail, fine);
      assert word == [c] + tail;
      assert Only(word, fine) <==> fine(c) && Only(tail, fine);
      assert Free(word, fine) <==> !fine(c) && Free(tail, fine);
      if tail != "" {
        PutInFront(c, tail, fine);
        assert [tail][0] == tail && [tail][1..] == [];
      } else {
        assert Words(word, fine) == Glue(c, fine(c), false, []);
        assert word == [c] && [[c]] + [] == [[c]];
      }
    }
  }

  /** The words that are not all breaks of a class. */
  function Kept(words: seq<string>, breaks: Breaks): seq<string> {
    if words == [] then []
    else (if Only(words[0], breaks) then [] else [words[0]]) + Kept(words[1..], breaks)
  }

  lemma {:induction false} KeptFromWords(words: seq<string>, drop: Breaks, breaks: Breaks)
    requires AllFree(words, breaks)
    ensures AllFree(Kept(words, drop), breaks)
    ensures forall k | 0 <= k < |Kept(words, drop)| :: !Only(Kept(words, drop)[k], drop)
  {
    if words != [] {
      KeptFromWords(words[1..], drop, breaks);
    }
  }

  /** Words that are only breaks contribute nothing to the finer split. */
  lemma {:induction false} DroppedWordsAddNothing(words: seq<string>, fine: Breaks)
    ensures Resplit(Kept(words, fine), fine) == Resplit(words, fine)
  {
    if words != [] {
      DroppedWordsAddNothing(words[1..], fine);
      FineSplitOfWord(words[0], fine);
      ResplitCons(words[0], Kept(words[1..], fine), fine);
      assert Kept(words, fine) ==
             if Only(words[0], fine) then Kept(words[1..], fine) else [words[0]] + Kept(words[1..], fine);
      assert [] + Resplit(words[1..], fine) == Resplit(words[1..], fine);
    }
  }

  lemma {:induction false} FreeWordsStay(words: seq<string>, fine: Breaks)
    requires AllFree(words, fine)
    ensures Resplit(words, fine) == words
  {
    if words != [] {
      FreeWordsStay(words[1..], fine);
      FineSplitOfWord(words[0], fine);
    }
  }

  lemma {:induction false} SomeWordRemains(words: seq<string>, fine: Breaks)
    requires words != [] && !Only(words[0], fine)
    ensures Resplit(words, fine) != []
  {
    FineSplitOfWord(words[0], fine);
  }

  // ---------------------------------------------------------------------------
  // What the words are
  // ---------------------------------------------------------------------------

  function Concat(words: seq<string>): string {
    if words == [] then "" else words[0] + Concat(words[1..])
  }

  /** The characters of a text that are no breaks. */
  function Letters(text: string, breaks: Breaks): string {
    if text == "" then "" else (if breaks(text[0]) then "" else [text[0]]) + Letters(text[1..], breaks)
  }

  /** The words hold the characters that are no breaks, each once and in order. */
  lemma {:induction false} WordsHoldTheLetters(text: string, breaks: Breaks)
    ensures Concat(Words(text, breaks)) == Letters(text, breaks)
  {
    if text != "" {
      var c, rest := text[0], Words(text[1..], breaks);
      WordsHoldTheLetters(text[1..], breaks);
      if !breaks(c) && rest != [] {
        assert ([[c] + rest[0]] + rest[1..])[1..] == rest[1..];
        assert ([c] + rest[0]) + Concat(rest[1..]) == [c] + Concat(rest);
        assert ([[c]] + rest)[1..] == rest;
      } else if !breaks(c) {
        assert [[c]] + rest == [[c]];
      }
    }
  }

  lemma {:induction false} WordInFront(word: string, rest: string, breaks: Breaks)
    requires word != "" && Free(word, breaks) && (rest != "" ==> breaks(rest[0]))
    ensures Words(word + rest, breaks) == [word] + Words(rest, breaks)
  {
    var text := word + rest;
    assert text[0] == word[0] && text[1..] == word[1..] + rest;
    if |word| == 1 {
      assert text[1..] == rest && [text[0]] == word;
    } else {
      WordInFront(word[1..], rest, breaks);
      assert text[1] == word[1];
      assert [text[0]] + word[1..] == word;
      assert ([word[1..]] + Words(rest, breaks))[1..] == Words(rest, breaks);
    }
  }

  /** Words joined by a break are split into those very words. */
  lemma {:induction false} SplitOfJoined(words: seq<string>, breaks: Breaks)
    requires AllFree(words, breaks) && breaks(' ')
    ensures Words(Join(words, " "), breaks) == words
  {
    if words != [] {
      var first, rest := words[0], Join(words[1..], " ");
      SplitOfJoined(words[1..], breaks);
      if |words| == 1 {
        WordInFront(first, "", breaks);
        assert first + "" == first;
      } else {
        WordInFront(first, " " + rest, breaks);
        assert (" " + rest)[1..] == rest;
        assert first + " " + rest == first + (" " + rest);
      }
      assert words == [first] + words[1..];
    }
  }
}
