/** The headers of Markdown admonitions: what a reader of the notation finds in those that the converter writes. */
module AdmonitionHeaders {
  import opened Admonitions
  import opened Wrappers

  /** The table of admonition types for changes of versions, as text. */
  function VersionType(change: VersionKind, version: string): string {
    match change
    case Added => "success \"Added in " + version + "\""
    case Changed => "info \"Changed in " + version + "\""
    case Deprecated => "warning \"Deprecated since " + version + "\""
  }

  function SimpleType(simple: SimpleKind): string {
    match simple
    case Note => "note"
    case Warning => "warning"
    case Danger => "danger"
    case SeeAlso => "info \"See also\""
    case Important => "important"
    case Tip => "tip"
  }

  /** The line that is written for a directive, without its indentation. */
  function HeaderLine(content: Content): string
    requires IsDirective(content)
  {
    match content
    case Inline(kind, _) => "!!! " + kind
    case VersionText(change, version, _) => "!!! " + VersionType(change, version)
    case Version(change, version) => "!!! " + VersionType(change, version)
    case Dropdown(title) => "??? note \"" + title + "\""
    case Simple(simple) => "!!! " + SimpleType(simple)
  }

  /** The length of the first word. */
  function WordEnd(s: string): (n: nat)
    ensures n <= |s| && (forall i | 0 <= i < n :: s[i] != ' ') && (n < |s| ==> s[n] == ' ')
  {
    if s == "" || s[0] == ' ' then 0 else 1 + WordEnd(s[1..])
  }

  /** A type, and behind a blank its title in quotes. */
  function ReadType(s: string, folded: bool): Option<HeaderText> {
    var n := WordEnd(s);
    if n == |s| then Some(HeaderText(folded, s, None))
    else if |s| >= n + 3 && s[n + 1] == '"' && s[|s| - 1] == '"' then
      Some(HeaderText(folded, s[..n], Some(s[n + 2..|s| - 1])))
    else None
  }

  /** `!!!` opens an admonition, `???` one that is folded. */
  function ReadHeader(s: string): Option<HeaderText> {
    if "!!! " <= s then ReadType(s[4..], false)
    else if "??? " <= s then ReadType(s[4..], true)
    else None
  }

  lemma {:induction false} WordEndsAtBlank(word: string, rest: string)
    requires ' ' !in word && (rest == "" || rest[0] == ' ')
    ensures WordEnd(word + rest) == |word|
  {
    if word == "" {
      assert word + rest == rest;
    } else {
      assert (word + rest)[1..] == word[1..] + rest;
      WordEndsAtBlank(word[1..], rest);
    }
  }

  lemma TitledIsRead(kind: string, title: string, folded: bool)
    requires ' ' !in kind
    ensures ReadType(kind + (" \"" + title + "\""), folded) == Some(HeaderText(folded, kind, Some(title)))
  {
    var tail := " \"" + title + "\"";
    var s := kind + tail;
    WordEndsAtBlank(kind, tail);
    assert tail[0] == ' ' && tail[1] == '"' && tail[|tail| - 1] == '"' && tail[2..|tail| - 1] == title;
    assert s[|kind| + 1] == tail[1] && s[|s| - 1] == tail[|tail| - 1] && s[..|kind|] == kind;
    assert s[|kind| + 2..|s| - 1] == tail[2..|tail| - 1];
  }

  lemma UntitledIsRead(kind: string, folded: bool)
    requires ' ' !in kind
    ensures ReadType(kind, folded) == Some(HeaderText(folded, kind, None))
  {
    assert kind + "" == kind;
    WordEndsAtBlank(kind, "");
  }

  lemma MarkIsRead(mark: string, s: string)
    requires mark == "!!! " || mark == "??? "
    ensures ReadHeader(mark + s) == ReadType(s, mark == "??? ")
  {
    assert (mark + s)[..4] == mark && (mark + s)[4..] == s;
    assert "!!! "[0] != "??? "[0];
  }

  lemma Regroup(kind: string, open: string, phrase: string, version: string, close: string)
    ensures kind + (open + phrase) + version + close == kind + (open + (phrase + version) + close)
  {
  }

  /** A titled type as it is written, in one piece up to the version. */
  lemma TitledPieceIsRead(start: string, kind: string, phrase: string, version: string)
    requires ' ' !in kind && start == kind + (" \"" + phrase)
    ensures ReadType(start + version + "\"", false) == Some(HeaderText(false, kind, Some(phrase + version)))
  {
    Regroup(kind, " \"", phrase, version, "\"");
    TitledIsRead(kind, phrase + version, false);
  }

  lemma VersionIsRead(change: VersionKind, version: string)
    ensures ReadType(VersionType(change, version), false) == Some(VersionHeader(change, version))
  {
    match change
    case Added => TitledPieceIsRead("success \"Added in ", "success", "Added in ", version);
    case Changed => TitledPieceIsRead("info \"Changed in ", "info", "Changed in ", version);
    case Deprecated => TitledPieceIsRead("warning \"Deprecated since ", "warning", "Deprecated since ", version);
  }

  lemma SeeAlsoIsRead()
    ensures ReadType(SimpleType(SeeAlso), false) == Some(SimpleHeader(SeeAlso))
  {
    TitledIsRead("info", "See also", false);
    assert SimpleType(SeeAlso) == "info" + (" \"" + "See also" + "\"");
  }

  lemma SimpleIsRead(simple: SimpleKind)
    ensures ReadType(SimpleType(simple), false) == Some(SimpleHeader(simple))
  {
    if simple == SeeAlso {
      SeeAlsoIsRead();
    } else {
      UntitledIsRead(SimpleType(simple), false);
    }
  }

  lemma DropdownIsRead(title: string)
    ensures ReadHeader("??? note \"" + title + "\"") == Some(HeaderText(true, "note", Some(title)))
  {
    var text := "note" + (" \"" + title + "\"");
    MarkIsRead("??? ", text);
    TitledIsRead("note", title, true);
    assert "??? note \"" + title + "\"" == "??? " + text;
  }

  lemma OpenIsRead(text: string, header: HeaderText)
    requires ReadType(text, false) == Some(header)
    ensures ReadHeader("!!! " + text) == Some(header)
  {
    MarkIsRead("!!! ", text);
  }

  /** Every header line reads as the admonition that the directive asks for: its type, its title, folded or not. */
  lemma HeaderReadsAsMeant(content: Content)
    requires IsDirective(content) && (content.Inline? ==> ' ' !in content.kind)
    ensures ReadHeader(HeaderLine(content)) == Some(HeaderOf(content))
  {
    match content
    case Inline(kind, _) =>
      UntitledIsRead(kind, false);
      OpenIsRead(kind, HeaderText(false, kind, None));
    case VersionText(change, version, _) =>
      VersionIsRead(change, version);
      OpenIsRead(VersionType(change, version), VersionHeader(change, version));
    case Version(change, version) =>
      VersionIsRead(change, version);
      OpenIsRead(VersionType(change, version), VersionHeader(change, version));
    case Dropdown(title) =>
      DropdownIsRead(title);
    case Simple(simple) =>
      SimpleIsRead(simple);
      OpenIsRead(SimpleType(simple), SimpleHeader(simple));
  }
}
