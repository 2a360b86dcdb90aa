/**
 From what a user types to a text-search query: splitting into words, with and without the
 punctuation that paths and host names need, and printing the query.
 */
module Search {
  import opened Wrappers
  import opened Text
  import opened Splitting

  /** `string.punctuation` */
  predicate IsPunctuation(c: char) {
    '!' <= c <= '/' || ':' <= c <= '@' || '[' <= c <= '`' || '{' <= c <= '~'
  }

  /** Punctuation that does not occur in paths, URLs and host names. */
  predicate IsUnsupported(c: char) {
    IsPunctuation(c) && c != '/' && c != '.' && c != '_' && c != '-'
  }

  /** Where a word that keeps paths and host names whole ends. */
  predicate IsCoarseBreak(c: char) { IsSpace(c) || IsUnsupported(c) }

  predicate IsFineBreak(c: char) { IsSpace(c) || IsPunctuation(c) }

  /** `text.translate(...)`: characters of one class become spaces. */
  function Blanked(text: string, blanks: Breaks): string {
    if text == "" then "" else [if blanks(text[0]) then ' ' else text[0]] + Blanked(text[1..], blanks)
  }

  // ---------------------------------------------------------------------------
  // The two splitters
  // ---------------------------------------------------------------------------

  /** Blanking a class and splitting on spaces is splitting on both. */
  lemma {:induction false} BlankThenSplit(text: string, blanks: Breaks, spaces: Breaks, both: Breaks)
    requires spaces(' ') && forall c :: both(c) <==> spaces(c) || blanks(c)
    ensures Words(Blanked(text, blanks), spaces) == Words(text, both)
  {
    if text != "" {
      BlankThenSplit(text[1..], blanks, spaces, both);
      var blanked := Blanked(text, blanks);
      assert blanked[1..] == Blanked(text[1..], blanks);
      assert spaces(blanked[0]) <==> both(text[0]);
      if |text| > 1 {
        assert blanked[1] == if blanks(text[1]) then ' ' else text[1];
      }
    }
  }

  lemma BlankingThenSplitting(query: string)
    ensures Words(Blanked(query, IsPunctuation), IsSpace) == Words(query, IsFineBreak)
    ensures Words(Blanked(query, IsUnsupported), IsSpace) == Words(query, IsCoarseBreak)
  {
    BlankThenSplit(query, IsPunctuation, IsSpace, IsFineBreak);
    BlankThenSplit(query, IsUnsupported, IsSpace, IsCoarseBreak);
  }

  function WordsWithoutAnyPunctuation(query: string): (words: seq<string>)
    ensures words == Words(query, IsFineBreak)
  {
    BlankingThenSplitting(query);
    Words(Blanked(query, IsPunctuation), IsSpace)
  }

  /** The words of a query that keep `/`, `.`, `_` and `-`, without those made of punctuation alone. */
  function SupportedWords(query: string): seq<string> {
    Kept(Words(query, IsCoarseBreak), IsPunctuation)
  }

  method WordsWithSupportedPunctuation(query: string) returns (result: seq<string>)
    ensures result == SupportedWords(query)
  {
    var converted := Blanked(query, IsUnsupported);
    BlankingThenSplitting(query);
    result := KeepWords(Words(converted, IsSpace), IsPunctuation);
  }

  method KeepWords(parts: seq<string>, punctuation: Breaks) returns (result: seq<string>)
    ensures result == Kept(parts, punctuation)
  {
    result := [];
    for k := 0 to |parts|
      invariant Kept(parts, punctuation) == result + Kept(parts[k..], punctuation)
    {
      assert parts[k..][0] == parts[k] && parts[k..][1..] == parts[k + 1..];
      if !Only(parts[k], punctuation) {
        result := result + [parts[k]];
      }
    }
  }

  /** A word free of spaces is all punctuation exactly when it is all fine breaks. */
  lemma {:induction false} KeptAgrees(words: seq<string>)
    requires AllFree(words, IsSpace)
    ensures Kept(words, IsPunctuation) == Kept(words, IsFineBreak)
  {
    if words != [] {
      KeptAgrees(words[1..]);
      assert Free(words[0], IsSpace);
      assert Only(words[0], IsPunctuation) <==> Only(words[0], IsFineBreak);
    }
  }

  lemma CoarseWordsAreFreeOfSpaces(query: string)
    ensures AllFree(Words(query, IsCoarseBreak), IsSpace)
    ensures AllFree(SupportedWords(query), IsCoarseBreak)
    ensures SupportedWords(query) == Kept(Words(query, IsCoarseBreak), IsFineBreak)
  {
    var coarse := Words(query, IsCoarseBreak);
    WordsAreFree(query, IsCoarseBreak);
    forall k | 0 <= k < |coarse|
      ensures coarse[k] != "" && Free(coarse[k], IsSpace)
    {
      assert Free(coarse[k], IsCoarseBreak);
    }
    KeptAgrees(coarse);
    KeptFromWords(coarse, IsPunctuation, IsCoarseBreak);
  }

  /**
   The two word lists of a query: the second is each kept word split again, every kept word
   contributes, and they are equal exactly when no kept word has punctuation in it.
   */
  lemma SplittersAgree(query: string)
    ensures WordsWithoutAnyPunctuation(query) == Resplit(SupportedWords(query), IsFineBreak)
    ensures forall k | 0 <= k < |SupportedWords(query)| :: Words(SupportedWords(query)[k], IsFineBreak) != []
    ensures SupportedWords(query) == WordsWithoutAnyPunctuation(query) <==>
            AllFree(SupportedWords(query), IsPunctuation)
    ensures SupportedWords(query) == [] <==> WordsWithoutAnyPunctuation(query) == []
  {
    var coarse, kept := Words(query, IsCoarseBreak), SupportedWords(query);
    CoarseWordsAreFreeOfSpaces(query);
    FineIsResplit(query);
    WordsAreFree(query, IsCoarseBreak);
    KeptFromWords(coarse, IsFineBreak, IsCoarseBreak);
    forall k | 0 <= k < |kept|
      ensures Words(kept[k], IsFineBreak) != []
    {
      FineSplitOfWord(kept[k], IsFineBreak);
    }
    if kept != [] {
      SomeWordRemains(kept, IsFineBreak);
    }
    EqualIffPlain(query, kept);
  }

  lemma FineIsResplit(query: string)
    ensures Words(query, IsFineBreak) == Resplit(SupportedWords(query), IsFineBreak)
  {
    var coarse := Words(query, IsCoarseBreak);
    CoarseWordsAreFreeOfSpaces(query);
    FineSplitRefinesCoarse(query, IsCoarseBreak, IsFineBreak);
    DroppedWordsAddNothing(coarse, IsFineBreak);
  }

  lemma EqualIffPlain(query: string, kept: seq<string>)
    requires AllFree(kept, IsCoarseBreak) && Words(query, IsFineBreak) == Resplit(kept, IsFineBreak)
    ensures kept == Words(query, IsFineBreak) <==> AllFree(kept, IsPunctuation)
  {
    WordsAreFree(query, IsFineBreak);
    if kept == Words(query, IsFineBreak) {
      assert AllFree(kept, IsFineBreak);
      forall k | 0 <= k < |kept|
        ensures Free(kept[k], IsPunctuation)
      {
        assert Free(kept[k], IsFineBreak);
      }
    }
    if AllFree(kept, IsPunctuation) {
      forall k | 0 <= k < |kept|
        ensures kept[k] != "" && Free(kept[k], IsFineBreak)
      {
        assert Free(kept[k], IsCoarseBreak) && Free(kept[k], IsPunctuation);
      }
      FreeWordsStay(kept, IsFineBreak);
    }
  }

  // ---------------------------------------------------------------------------
  // Printing the query
  // ---------------------------------------------------------------------------

  function Quote(word: string, byPrefix: bool): string {
    "'" + word + "'" + (if byPrefix then ":*" else "")
  }

  function QuoteAll(words: seq<string>, byPrefix: bool): seq<string> {
    if words == [] then []
    else (if words[0] == "" then [] else [Quote(words[0], byPrefix)]) + QuoteAll(words[1..], byPrefix)
  }

  function CombineWords(words: seq<string>, byPrefix: bool): string {
    Join(QuoteAll(words, byPrefix), " & ")
  }

  function Parenthesised(queries: seq<string>): seq<string> {
    if queries == [] then []
    else (if queries[0] == "" then [] else ["(" + queries[0] + ")"]) + Parenthesised(queries[1..])
  }

  function CombineQueries(queries: seq<string>): string {
    Join(Parenthesised(queries), " | ")
  }

  function BuildTsquery(query: string): string {
    var original, only := SupportedWords(query), WordsWithoutAnyPunctuation(query);
    CombineQueries([CombineWords(original, false), CombineWords(original, true),
                    if only != original then CombineWords(only, true) else ""])
  }

  // ---------------------------------------------------------------------------
  // Reading it back
  // ---------------------------------------------------------------------------

  datatype Item = Item(word: string, byPrefix: bool)

  datatype Parsed<T> = Fail | Done(value: T, rest: string)

  predicate StartsWith(text: string, prefix: string) {
    prefix <= text
  }

  function ReadUntilQuote(text: string): Parsed<string> {
    if text == "" then Fail
    else if text[0] == '\'' then Done("", text[1..])
    else
      match ReadUntilQuote(text[1..])
      case Fail => Fail
      case Done(word, rest) => Done([text[0]] + word, rest)
  }

  /** A quoted word, with or without the prefix mark. */
  function ReadItem(text: string): (r: Parsed<Item>)
    ensures r.Done? ==> |r.rest| < |text|
  {
    if !StartsWith(text, "'") then Fail
    else
      ReadShortens(text[1..]);
      match ReadUntilQuote(text[1..])
      case Fail => Fail
      case Done(word, rest) =>
        if StartsWith(rest, ":*") then Done(Item(word, true), rest[2..]) else Done(Item(word, false), rest)
  }

  lemma {:induction false} ReadShortens(text: string)
    ensures var r := ReadUntilQuote(text); r.Done? ==> |r.rest| < |text|
  {
    if text != "" && text[0] != '\'' {
      ReadShortens(text[1..]);
    }
  }

  function ReadItems(text: string): (r: Parsed<seq<Item>>)
    ensures r.Done? ==> |r.rest| < |text|
    decreases |text|
  {
    match ReadItem(text)
    case Fail => Fail
    case Done(item, rest) =>
      if StartsWith(rest, " & ") then
        match ReadItems(rest[3..])
        case Fail => Fail
        case Done(items, rest') => Done([item] + items, rest')
      else Done([item], rest)
  }

  function ReadGroups(text: string): Option<seq<seq<Item>>>
    decreases |text|
  {
    if !StartsWith(text, "(") then None
    else
      match ReadItems(text[1..])
      case Fail => None
      case Done(items, rest) =>
        if rest == ")" then Some([items])
        else if StartsWith(rest, ") | ") then
          match ReadGroups(rest[4..])
          case None => None
          case Some(groups) => Some([items] + groups)
        else None
  }

  function ReadQuery(text: string): Option<seq<seq<Item>>> {
    if text == "" then Some([]) else ReadGroups(text)
  }

  // ---------------------------------------------------------------------------
  // The round trip
  // ---------------------------------------------------------------------------

  predicate Printable(words: seq<string>) {
    forall k | 0 <= k < |words| :: words[k] != "" && '\'' !in words[k]
  }

  function Items(words: seq<string>, byPrefix: bool): seq<Item> {
    if words == [] then [] else [Item(words[0], byPrefix)] + Items(words[1..], byPrefix)
  }

  lemma {:induction false} QuoteIsRead(word: string, tail: string)
    requires '\'' !in word
    ensures ReadUntilQuote(word + "'" + tail) == Done(word, tail)
  {
    var text := word + "'" + tail;
    if word == "" {
      assert text[1..] == tail;
    } else {
      assert text[1..] == word[1..] + "'" + tail;
      QuoteIsRead(word[1..], tail);
      assert [word[0]] + word[1..] == word;
    }
  }

  lemma ItemIsRead(word: string, byPrefix: bool, tail: string)
    requires '\'' !in word && !StartsWith(tail, ":*")
    ensures ReadItem(Quote(word, byPrefix) + tail) == Done(Item(word, byPrefix), tail)
  {
    var mark := if byPrefix then ":*" else "";
    var text := Quote(word, byPrefix) + tail;
    assert text[..1] == "'" && text[1..] == word + "'" + (mark + tail);
    QuoteIsRead(word, mark + tail);
    if byPrefix {
      assert (":*" + tail)[..2] == ":*" && (":*" + tail)[2..] == tail;
    } else {
      assert mark + tail == tail;
    }
  }

  lemma QuoteAllKeepsAll(words: seq<string>, byPrefix: bool)
    requires Printable(words) && words != []
    ensures QuoteAll(words, byPrefix) == [Quote(words[0], byPrefix)] + QuoteAll(words[1..], byPrefix)
    ensures |words| > 1 ==> QuoteAll(words[1..], byPrefix) != []
  {
    assert words[0] != "";
    if |words| > 1 {
      assert words[1..][0] == words[1] != "";
    }
  }

  lemma CombineUnfolds(words: seq<string>, byPrefix: bool)
    requires Printable(words) && words != []
    ensures CombineWords(words, byPrefix) ==
              Quote(words[0], byPrefix) + if |words| == 1 then "" else " & " + CombineWords(words[1..], byPrefix)
  {
    QuoteAllKeepsAll(words, byPrefix);
    var quoted, rest := QuoteAll(words, byPrefix), QuoteAll(words[1..], byPrefix);
    assert quoted[0] == Quote(words[0], byPrefix) && quoted[1..] == rest;
    if |words| == 1 {
      assert words[1..] == [] && rest == [];
    } else {
      assert |quoted| > 1;
    }
  }

  lemma LastItemIsRead(text: string, item: Item, rest: string)
    requires ReadItem(text) == Done(item, rest) && StartsWith(rest, ")")
    ensures ReadItems(text) == Done([item], rest)
  {
    assert rest[0] == ')' && !StartsWith(rest, " & ");
  }

  lemma NextItemsAreRead(text: string, item: Item, rest: string, items: seq<Item>, tail: string)
    requires ReadItem(text) == Done(item, " & " + rest) && ReadItems(rest) == Done(items, tail)
    ensures ReadItems(text) == Done([item] + items, tail)
  {
    assert StartsWith(" & " + rest, " & ") && (" & " + rest)[3..] == rest;
  }

  lemma {:induction false} ItemsAreRead(words: seq<string>, byPrefix: bool, tail: string)
    requires Printable(words) && words != [] && StartsWith(tail, ")")
    ensures ReadItems(CombineWords(words, byPrefix) + tail) == Done(Items(words, byPrefix), tail)
    decreases |words|
  {
    CombineUnfolds(words, byPrefix);
    var head, item := Quote(words[0], byPrefix), Item(words[0], byPrefix);
    assert Items(words, byPrefix) == [item] + Items(words[1..], byPrefix);
    if |words| == 1 {
      assert CombineWords(words, byPrefix) + tail == head + tail;
      assert tail[0] == ')' && !StartsWith(tail, ":*");
      ItemIsRead(words[0], byPrefix, tail);
      LastItemIsRead(head + tail, item, tail);
      assert words[1..] == [] && [item] + [] == [item];
    } else {
      var rest := CombineWords(words[1..], byPrefix) + tail;
      assert CombineWords(words, byPrefix) + tail == head + (" & " + rest);
      assert (" & " + rest)[0] == ' ' && !StartsWith(" & " + rest, ":*");
      ItemIsRead(words[0], byPrefix, " & " + rest);
      ItemsAreRead(words[1..], byPrefix, tail);
      NextItemsAreRead(head + (" & " + rest), item, rest, Items(words[1..], byPrefix), tail);
    }
  }

  /** `more` is nothing, or what follows the closing parenthesis of a group. */
  function After(more: string): string {
    if more == "" then "" else " | " + more
  }

  function Group(words: seq<string>, byPrefix: bool, more: string): string {
    "(" + CombineWords(words, byPrefix) + ")" + After(more)
  }

  lemma LastGroupIsRead(inner: string, items: seq<Item>)
    requires ReadItems(inner) == Done(items, ")")
    ensures ReadGroups("(" + inner) == Some([items])
  {
    assert StartsWith("(" + inner, "(") && ("(" + inner)[1..] == inner;
  }

  lemma NextGroupsAreRead(inner: string, items: seq<Item>, more: string)
    requires ReadItems(inner) == Done(items, ") | " + more) && ReadGroups(more).Some?
    ensures ReadGroups("(" + inner) == Some([items] + ReadGroups(more).value)
  {
    assert StartsWith("(" + inner, "(") && ("(" + inner)[1..] == inner;
    var rest := ") | " + more;
    assert |rest| > 1 && StartsWith(rest, ") | ") && rest[4..] == more;
  }

  lemma OnlyGroupIsRead(words: seq<string>, byPrefix: bool)
    requires Printable(words) && words != []
    ensures ReadGroups(Group(words, byPrefix, "")) == Some([Items(words, byPrefix)])
  {
    var combined := CombineWords(words, byPrefix);
    ItemsAreRead(words, byPrefix, ")");
    LastGroupIsRead(combined + ")", Items(words, byPrefix));
    assert Group(words, byPrefix, "") == "(" + (combined + ")");
  }

  lemma GroupBeforeOthersIsRead(words: seq<string>, byPrefix: bool, more: string)
    requires Printable(words) && words != []
    requires more != "" && ReadGroups(more).Some?
    ensures ReadGroups(Group(words, byPrefix, more)) == Some([Items(words, byPrefix)] + ReadGroups(more).value)
  {
    var combined, tail := CombineWords(words, byPrefix), ") | " + more;
    assert tail[..1] == ")";
    ItemsAreRead(words, byPrefix, tail);
    NextGroupsAreRead(combined + tail, Items(words, byPrefix), more);
    GroupText(combined, more);
  }

  lemma GroupText(combined: string, more: string)
    requires more != ""
    ensures "(" + combined + ")" + After(more) == "(" + (combined + (") | " + more))
  {
    assert ") | " + more == ")" + (" | " + more);
  }

  /** What the query says: all words exactly, or all words as prefixes, or all their pieces as prefixes. */
  function Meaning(query: string): seq<seq<Item>> {
    var original, only := SupportedWords(query), WordsWithoutAnyPunctuation(query);
    if original == [] then []
    else [Items(original, false), Items(original, true)] + if only != original then [Items(only, true)] else []
  }

  lemma FreeWordsArePrintable(words: seq<string>, breaks: Breaks)
    requires AllFree(words, breaks) && breaks('\'')
    ensures Printable(words)
  {
    forall k | 0 <= k < |words|
      ensures '\'' !in words[k]
    {
      assert Free(words[k], breaks);
    }
  }

  lemma SplitWordsArePrintable(query: string)
    ensures Printable(SupportedWords(query)) && Printable(WordsWithoutAnyPunctuation(query))
  {
    CoarseWordsAreFreeOfSpaces(query);
    FreeWordsArePrintable(SupportedWords(query), IsCoarseBreak);
    WordsAreFree(query, IsFineBreak);
    FreeWordsArePrintable(WordsWithoutAnyPunctuation(query), IsFineBreak);
  }

  /**
   For every input the printed query reads back as what it should say, and it is empty exactly
   when there are no words.
   */
  lemma QueryRoundTrip(query: string)
    ensures ReadQuery(BuildTsquery(query)) == Some(Meaning(query))
    ensures BuildTsquery(query) == "" <==> WordsWithoutAnyPunctuation(query) == []
  {
    var original, only := SupportedWords(query), WordsWithoutAnyPunctuation(query);
    SplitWordsArePrintable(query);
    SplittersAgree(query);
    if original == [] {
      NothingIsPrinted();
    } else {
      QueryIsPrinted(original, only);
      PrintedGroupsAreRead(original, only);
    }
  }

  /** The text of a query with words: the third group only when it says something new. */
  function Printed(original: seq<string>, only: seq<string>): string {
    Group(original, false, Group(original, true, if only != original then Group(only, true, "") else ""))
  }

  lemma PrintedGroupsAreRead(original: seq<string>, only: seq<string>)
    requires Printable(original) && Printable(only) && original != [] && only != []
    ensures ReadGroups(Printed(original, only)) ==
              Some([Items(original, false), Items(original, true)] + if only != original then [Items(only, true)]
                   else [])
  {
    if only != original {
      OnlyGroupIsRead(only, true);
      FirstTwoGroupsAreRead(original, Group(only, true, ""));
    } else {
      FirstTwoGroupsAreRead(original, "");
    }
  }

  lemma FirstTwoGroupsAreRead(original: seq<string>, last: string)
    requires Printable(original) && original != []
    requires last != "" ==> ReadGroups(last).Some?
    ensures ReadGroups(Group(original, false, Group(original, true, last))) ==
              Some([Items(original, false), Items(original, true)] + if last != "" then ReadGroups(last).value else [])
  {
    var exact, prefix := Items(original, false), Items(original, true);
    if last == "" {
      OnlyGroupIsRead(original, true);
      InFront(exact, prefix, []);
    } else {
      GroupBeforeOthersIsRead(original, true, last);
      InFront(exact, prefix, ReadGroups(last).value);
    }
    GroupIsNotEmpty(original, true, last);
    GroupBeforeOthersIsRead(original, false, Group(original, true, last));
  }

  lemma InFront<T>(a: T, b: T, rest: seq<T>)
    ensures [a] + ([b] + rest) == [a, b] + rest && [b] + [] == [b]
  {
  }

  lemma GroupIsNotEmpty(words: seq<string>, byPrefix: bool, more: string)
    ensures Group(words, byPrefix, more) != ""
  {
    assert Group(words, byPrefix, more)[0] == '(';
  }

  lemma NothingIsPrinted()
    ensures CombineQueries([CombineWords([], false), CombineWords([], true), ""]) == ""
  {
    assert CombineWords([], false) == "" && CombineWords([], true) == "";
    assert ["", "", ""][1..] == ["", ""] && ["", ""][1..] == [""] && [""][1..] == [];
    assert Parenthesised([]) == [];
    assert Parenthesised([""]) == [];
    assert Parenthesised(["", ""]) == [];
    assert Parenthesised(["", "", ""]) == [];
  }

  lemma QueryIsPrinted(original: seq<string>, only: seq<string>)
    requires Printable(original) && Printable(only) && original != [] && only != []
    ensures var exact, prefix := CombineWords(original, false), CombineWords(original, true);
            var pieces := if only != original then CombineWords(only, true) else "";
            CombineQueries([exact, prefix, pieces]) == Printed(original, only)
  {
    var exact, prefix := CombineWords(original, false), CombineWords(original, true);
    var pieces := if only != original then CombineWords(only, true) else "";
    CombineUnfolds(original, false);
    CombineUnfolds(original, true);
    CombineUnfolds(only, true);
    ThreeQueries(exact, prefix, pieces);
  }

  lemma ThreeQueries(exact: string, prefix: string, pieces: string)
    requires exact != "" && prefix != ""
    ensures var last := if pieces == "" then "" else "(" + pieces + ")" + After("");
            CombineQueries([exact, prefix, pieces]) == "(" + exact + ")" + After("(" + prefix + ")" + After(last))
  {
    var a, b, c := "(" + exact + ")", "(" + prefix + ")", "(" + pieces + ")";
    var last := if pieces == "" then [] else [c];
    assert Parenthesised([exact, prefix, pieces]) == [a, b] + last by {
      assert [exact, prefix, pieces][1..] == [prefix, pieces] && [prefix, pieces][1..] == [pieces] &&
             [pieces][1..] == [];
      assert Parenthesised([pieces]) == last;
      assert Parenthesised([prefix, pieces]) == [b] + last;
    }
    JoinCons(a, [b] + last, " | ");
    JoinCons(b, last, " | ");
    assert [a, b] + last == [a] + ([b] + last);
    assert Join(last, " | ") == if pieces == "" then "" else c;
    assert c + "" == c;
  }

  lemma JoinCons(part: string, parts: seq<string>, separator: string)
    ensures Join([part] + parts, separator) == part + if parts == [] then "" else separator + Join(parts, separator)
  {
    assert ([part] + parts)[1..] == parts;
    if parts == [] {
      assert [part] + parts == [part] && part + "" == part;
    }
  }

  // ---------------------------------------------------------------------------
  // What the two classes of punctuation are for
  // ---------------------------------------------------------------------------

  const PUNCTUATION := "!\"#$%&'()*+,-./:;<=>?@[\\]^_`{|}~"

  predicate IsPathSign(c: char) {
    c == '/' || c == '.' || c == '_' || c == '-'
  }

  lemma ListedIsSign(k: nat)
    requires k < |PUNCTUATION|
    ensures IsPunctuation(PUNCTUATION[k])
  {
  }

  /** The class is the 32 ASCII signs, and all but four of them separate words. */
  lemma PunctuationIs(c: char)
    ensures IsPunctuation(c) <==> c in PUNCTUATION
    ensures IsUnsupported(c) <==> c in PUNCTUATION && !IsPathSign(c)
  {
    if c in PUNCTUATION {
      var k :| 0 <= k < |PUNCTUATION| && PUNCTUATION[k] == c;
      ListedIsSign(k);
    }
    if IsPunctuation(c) {
      SignIsListed(c);
    }
  }

  lemma SignIsListed(c: char)
    requires IsPunctuation(c)
    ensures c in PUNCTUATION
  {
    var p := PUNCTUATION;
    if c <= '/' {
      assert p[(c - '!') as int] == c;
    } else if c <= '@' {
      assert p[(c - ':') as int + 15] == c;
    } else if c <= '`' {
      assert p[(c - '[') as int + 22] == c;
    } else {
      assert p[(c - '{') as int + 28] == c;
    }
  }

  /** Paths, URLs and host names: no spaces, no signs but these four, and something besides signs. */
  ghost predicate IsPathLike(text: string) {
    && (forall i | 0 <= i < |text| :: !IsSpace(text[i]) && (text[i] in PUNCTUATION ==> IsPathSign(text[i])))
    && exists i :: 0 <= i < |text| && text[i] !in PUNCTUATION
  }

  lemma PathHasNoBreak(text: string)
    requires IsPathLike(text)
    ensures text != "" && Free(text, IsCoarseBreak) && !Only(text, IsPunctuation)
  {
    forall i | 0 <= i < |text|
      ensures !IsCoarseBreak(text[i])
    {
      PunctuationIs(text[i]);
    }
    var i :| 0 <= i < |text| && text[i] !in PUNCTUATION;
    PunctuationIs(text[i]);
  }

  /** Such a text stays one word. */
  lemma PathsStayWhole(text: string)
    requires IsPathLike(text)
    ensures SupportedWords(text) == [text]
  {
    PathHasNoBreak(text);
    FineSplitOfWord(text, IsCoarseBreak);
    assert [text][1..] == [];
    assert Kept([text], IsPunctuation) == [text] + Kept([], IsPunctuation);
  }

  /** A group of one word, in front of the rest of the query. */
  lemma OneWordGroup(word: string, byPrefix: bool, more: string)
    requires word != ""
    ensures Group([word], byPrefix, more) == "('" + word + "'" + (if byPrefix then ":*)" else ")") + After(more)
  {
    assert [word][1..] == [];
    assert QuoteAll([word], byPrefix) == [Quote(word, byPrefix)];
    assert CombineWords([word], byPrefix) == Quote(word, byPrefix);
    Parenthesis(word, if byPrefix then ":*" else "");
  }

  lemma Parenthesis(word: string, mark: string)
    ensures "(" + ("'" + word + "'" + mark) + ")" == "('" + word + "'" + (mark + ")")
  {
  }

  /**
   The query for a path: the whole text, the text as a prefix, and, if it has signs in it, its
   pieces as prefixes. For a plain word only the first two.
   */
  lemma QueryForPath(text: string)
    requires IsPathLike(text)
    ensures var pieces := WordsWithoutAnyPunctuation(text);
            BuildTsquery(text) ==
              "('" + text + "'" + ")" + After("('" + text + "'" + ":*)" +
                After(if Free(text, IsPunctuation) then "" else Group(pieces, true, "")))
  {
    var pieces := WordsWithoutAnyPunctuation(text);
    PathHasNoBreak(text);
    PathsStayWhole(text);
    SplittersAgree(text);
    SplitWordsArePrintable(text);
    PlainIff(text);
    QueryIsPrinted([text], pieces);
    OneWordGroup(text, false, Group([text], true, if pieces != [text] then Group(pieces, true, "") else ""));
    OneWordGroup(text, true, if pieces != [text] then Group(pieces, true, "") else "");
  }

  lemma PlainIff(text: string)
    requires SupportedWords(text) == [text] && text != ""
    ensures WordsWithoutAnyPunctuation(text) == [text] <==> Free(text, IsPunctuation)
  {
    SplittersAgree(text);
    assert [text][0] == text;
  }
}
