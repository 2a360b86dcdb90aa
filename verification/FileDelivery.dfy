/** Written files get their final names in the temporary directory and are then moved or uploaded to the target. */
module FileDelivery {
  import opened Collections
  import opened Extensions
  import opened FileNames
  import opened Renaming
  import opened RunNames
  import opened Text

  /** The names that the template gives to the first `n` files. */
  function NewNames(pieces: Template, naming: Naming, n: nat): (names: seq<string>)
    ensures |names| == n && forall i | 0 <= i < n :: names[i] == FileName(pieces, i, naming)
  {
    seq(n, i requires 0 <= i < n => FileName(pieces, i, naming))
  }

  /**
   With an index in the template only the old names matter: no file may be waiting under the name
   of an earlier one.
   */
  lemma NoConflictIff(listing: seq<string>, pieces: Template, naming: Naming)
    requires Index in pieces
    ensures NoConflict(listing, NewNames(pieces, naming, |listing|)) <==>
            forall i, j | 0 <= i < j < |listing| :: FileName(pieces, i, naming) != listing[j]
  {
    var names := NewNames(pieces, naming, |listing|);
    if NoConflict(listing, names) {
      forall i, j | 0 <= i < j < |listing|
        ensures FileName(pieces, i, naming) != listing[j]
      {
        assert names[i] != listing[j];
      }
    } else {
      var i, j :| 0 <= i < j < |listing| && (names[i] == names[j] || names[i] == listing[j]);
      if names[i] == names[j] {
        NamesAreDistinct(pieces, i, j, naming);
        assert false;
      }
      assert FileName(pieces, i, naming) == listing[j];
    }
  }

  /**
   An accepted template without doubled braces, old names that are not new ones: the renamed
   directory is the old one under new names.
   */
  lemma AcceptedTemplateKeepsEveryFile<F>(
      files: map<string, F>, listing: seq<string>, value: string, foreignWord: char -> bool, naming: Naming)
    requires ValidateFileNameTemplate(value, foreignWord).Ok? && !Contains(value, "{{")
    requires Lists(listing, files)
    requires forall i, j | 0 <= i < |listing| && 0 <= j < |listing| ::
               FileName(ValidateFileNameTemplate(value, foreignWord).value, i, naming) != listing[j]
    ensures var names := NewNames(ValidateFileNameTemplate(value, foreignWord).value, naming, |listing|);
            var result := RenameAll(files, listing, names);
            && |result| == |files|
            && forall i | 0 <= i < |listing| :: names[i] in result && result[names[i]] == files[listing[i]]
  {
    var pieces := ValidateFileNameTemplate(value, foreignWord).value;
    AcceptedTemplateHasItsPlaceholders(value, foreignWord);
    NoConflictIff(listing, pieces, naming);
    var names := NewNames(pieces, naming, |listing|);
    RenamingLosesNothingIff(files, listing, names);
    RenamingArrives(files, listing, names);
  }

  // ---------------------------------------------------------------------------
  // What reaches the target
  // ---------------------------------------------------------------------------

  predicate EndsWith(s: string, suffix: string) {
    |suffix| <= |s| && s[|s| - |suffix|..] == suffix
  }

  /** The pattern `*.extension` of the mover. */
  predicate IsSelected(name: string, extension: string) {
    EndsWith(name, "." + extension)
  }

  class Directory<F> {
    var files: map<string, F>

    constructor ()
      ensures files == map[]
    {
      files := map[];
    }

    method Rename(oldName: string, newName: string)
      requires oldName in files
      modifies this
      ensures files == Renamed(old(files), oldName, newName)
    {
      var file := files[oldName];
      files := files - {oldName};
      files := files[newName := file];
    }

    /** Never looks for a file that is gone. */
    method RenameFiles(listing: seq<string>, pieces: Template, naming: Naming)
      requires Lists(listing, files)
      modifies this
      ensures files == RenameAll(old(files), listing, NewNames(pieces, naming, |listing|))
    {
      ghost var names := NewNames(pieces, naming, |listing|);
      var index := 0;
      while index < |listing|
        invariant 0 <= index <= |listing|
        invariant files == RenameFirst(old(files), listing, names, index)
      {
        var newName := FileName(pieces, index, naming);
        Rename(listing[index], newName);
        index := index + 1;
      }
    }

    /** Moves the files with the extension here, one by one; a file whose name is taken here stays where it is. */
    method MoveHere(source: Directory<F>, extension: string)
      requires source != this
      modifies this, source
      ensures forall name :: name in files <==>
              name in old(files) || (name in old(source.files) && IsSelected(name, extension))
      ensures forall name | name in files ::
              files[name] == if name in old(files) then old(files)[name] else old(source.files)[name]
      ensures forall name :: name in source.files <==>
                name in old(source.files) && (name in old(files) || !IsSelected(name, extension))
      ensures forall name | name in source.files :: source.files[name] == old(source.files)[name]
    {
      var rest := source.files.Keys;
      while rest != {}
        invariant rest <= source.files.Keys
        invariant forall name :: name in files <==>
                    name in old(files) || (name in old(source.files) && name !in rest && IsSelected(name, extension))
        invariant forall name | name in files ::
                  files[name] == if name in old(files) then old(files)[name] else old(source.files)[name]
        invariant forall name :: name in source.files <==>
                    name in old(source.files) && (name in rest || name in old(files) || !IsSelected(name, extension))
        invariant forall name | name in source.files :: source.files[name] == old(source.files)[name]
        decreases rest
      {
        var name := PickOne(rest);
        rest := rest - {name};
        if IsSelected(name, extension) && name !in files {
          files := files[name := source.files[name]];
          source.files := source.files - {name};
        }
      }
    }

    /** Renames what was written, moves what matches, and removes the temporary directory in any case. */
    method WriteRemote(temp: Directory<F>, listing: seq<string>, pieces: Template, naming: Naming)
      requires temp != this && Lists(listing, temp.files)
      modifies this, temp
      ensures temp.files == map[]
      ensures files == Delivered(old(temp.files), listing, NewNames(pieces, naming, |listing|),
                                 name => IsSelected(name, naming.extension), old(files))
    {
      temp.RenameFiles(listing, pieces, naming);
      ghost var renamed, before := temp.files, files;
      MoveHere(temp, naming.extension);
      SameMap(files, Selected(renamed, name => IsSelected(name, naming.extension)) + before);
      temp.files := map[];
    }
  }

  // ---------------------------------------------------------------------------
  // Templates that the mover's pattern suits
  // ---------------------------------------------------------------------------

  predicate EndsInDotExtension(pieces: Template) {
    |pieces| >= 2 && pieces[|pieces| - 1] == Extension && pieces[|pieces| - 2] == Literal('.')
  }

  lemma NameEndsWithLastPiece(pieces: Template, index: nat, naming: Naming)
    requires pieces != []
    ensures FileName(pieces, index, naming) ==
            FileName(pieces[..|pieces| - 1], index, naming) + RenderPiece(pieces[|pieces| - 1], index, naming)
  {
    var n := |pieces| - 1;
    NameInParts(pieces, n, index, naming);
    assert pieces[n..] == [pieces[n]] && pieces[n..][1..] == [];
    assert FileName(pieces[n..], index, naming) == RenderPiece(pieces[n], index, naming) + "";
  }

  lemma EndsWithItsEnd(front: string, dot: string, extension: string)
    requires dot == "."
    ensures IsSelected((front + dot) + extension, extension)
  {
    assert (front + dot) + extension == front + ("." + extension);
    assert (front + ("." + extension))[|front|..] == "." + extension;
  }

  lemma DotExtensionIsSelected(pieces: Template, index: nat, naming: Naming)
    requires EndsInDotExtension(pieces)
    ensures IsSelected(FileName(pieces, index, naming), naming.extension)
  {
    var front := pieces[..|pieces| - 1];
    NameEndsWithLastPiece(pieces, index, naming);
    NameEndsWithLastPiece(front, index, naming);
    EndsWithItsEnd(FileName(front[..|front| - 1], index, naming), RenderPiece(front[|front| - 1], index, naming),
                   naming.extension);
  }

  /** The last character of a rendered piece that is no literal and no extension. */
  lemma NumeralsEndInDigits(piece: Piece, index: nat, naming: Naming)
    requires !piece.Literal? && piece != Extension && IsTimestamp(naming.createdAt)
    ensures var s := RenderPiece(piece, index, naming); s != "" && IsDigit(s[|s| - 1])
  {
  }

  /** What stands before the extension in a selected name is a dot. */
  lemma SelectedHasDot(front: string, extension: string)
    requires IsSelected(front + extension, extension)
    ensures front != "" && front[|front| - 1] == '.'
  {
    var s := front + extension;
    assert s[|s| - |extension| - 1..] == "." + extension;
    assert s[|front| - 1] == '.';
  }

  lemma SelectedEndsAlike(front: string, back: string, extension: string)
    requires back != "" && extension != ""
    ensures IsSelected(front + back, extension) ==> back[|back| - 1] == extension[|extension| - 1]
  {
    var s := front + back;
    if IsSelected(s, extension) {
      assert s[|s| - |extension| - 1..][|extension|] == ("." + extension)[|extension|];
    }
  }

  /** A format for which a template that does not end in a dot and the extension fails. */
  function UnsuitedFormat(pieces: Template): FileFormat {
    if pieces != [] && pieces[|pieces| - 1] == Literal('v') then XML else CSV
  }

  lemma ExtensionBehindNoDot(pieces: Template, index: nat, naming: Naming)
    requires pieces != [] && pieces[|pieces| - 1] == Extension && !EndsInDotExtension(pieces) &&
             IsTimestamp(naming.createdAt)
    requires naming.extension == "csv" || naming.extension == "xml"
    ensures !IsSelected(FileName(pieces, index, naming), naming.extension)
  {
    var front := pieces[..|pieces| - 1];
    NameEndsWithLastPiece(pieces, index, naming);
    if IsSelected(FileName(pieces, index, naming), naming.extension) {
      SelectedHasDot(FileName(front, index, naming), naming.extension);
      NameEndsWithLastPiece(front, index, naming);
      EndOfFront(front[|front| - 1], index, naming);
    }
  }

  lemma OtherLastPiece(pieces: Template, index: nat, naming: Naming)
    requires pieces != [] && pieces[|pieces| - 1] != Extension && IsTimestamp(naming.createdAt)
    requires naming.extension != "" && !IsDigit(naming.extension[|naming.extension| - 1])
    requires pieces[|pieces| - 1] != Literal(naming.extension[|naming.extension| - 1])
    ensures !IsSelected(FileName(pieces, index, naming), naming.extension)
  {
    var last := pieces[|pieces| - 1];
    NameEndsWithLastPiece(pieces, index, naming);
    if !last.Literal? {
      NumeralsEndInDigits(last, index, naming);
    }
    SelectedEndsAlike(FileName(pieces[..|pieces| - 1], index, naming), RenderPiece(last, index, naming),
                      naming.extension);
  }

  lemma NameIsNotSelected(pieces: Template, index: nat, naming: Naming)
    requires !EndsInDotExtension(pieces) && IsTimestamp(naming.createdAt)
    requires naming.extension == FileExtension(UnsuitedFormat(pieces), NoCompression)
    ensures !IsSelected(FileName(pieces, index, naming), naming.extension)
  {
    if pieces != [] {
      if pieces[|pieces| - 1] == Extension {
        ExtensionBehindNoDot(pieces, index, naming);
      } else {
        OtherLastPiece(pieces, index, naming);
      }
    }
  }

  /**
   A template that does not end in a dot and the extension leaves every file of every run behind
   for one of two formats.
   */
  lemma OtherTemplatesLeaveFilesBehind(pieces: Template)
    requires !EndsInDotExtension(pieces)
    ensures var extension := FileExtension(UnsuitedFormat(pieces), NoCompression);
            forall index: nat, runId: nat, createdAt | IsTimestamp(createdAt) ::
              !IsSelected(FileName(pieces, index, Naming(extension, runId, createdAt)), extension)
  {
    var extension := FileExtension(UnsuitedFormat(pieces), NoCompression);
    forall index: nat, runId: nat, createdAt | IsTimestamp(createdAt)
      ensures !IsSelected(FileName(pieces, index, Naming(extension, runId, createdAt)), extension)
    {
      NameIsNotSelected(pieces, index, Naming(extension, runId, createdAt));
    }
  }

  lemma EndOfFront(piece: Piece, index: nat, naming: Naming)
    requires piece != Literal('.') && IsTimestamp(naming.createdAt)
    requires naming.extension == "csv" || naming.extension == "xml"
    ensures var s := RenderPiece(piece, index, naming); s != "" && s[|s| - 1] != '.'
  {
    if !piece.Literal? && piece != Extension {
      NumeralsEndInDigits(piece, index, naming);
    }
  }

  /**
   The mover takes along the files of every format and compression exactly when the template ends
   in a dot and the extension.
   */
  lemma MoverSuitsEveryFormatIff(pieces: Template, index: nat, runId: nat, createdAt: string)
    requires IsTimestamp(createdAt)
    ensures EndsInDotExtension(pieces) <==>
            forall format, compression ::
              IsSelected(FileName(pieces, index, Naming(FileExtension(format, compression), runId, createdAt)),
                         FileExtension(format, compression))
  {
    if EndsInDotExtension(pieces) {
      forall format, compression
        ensures IsSelected(FileName(pieces, index, Naming(FileExtension(format, compression), runId, createdAt)),
                           FileExtension(format, compression))
      {
        DotExtensionIsSelected(pieces, index, Naming(FileExtension(format, compression), runId, createdAt));
      }
    } else {
      var format, compression := UnsuitedFormat(pieces), NoCompression;
      NameIsNotSelected(pieces, index, Naming(FileExtension(format, compression), runId, createdAt));
      assert !IsSelected(FileName(pieces, index, Naming(FileExtension(format, compression), runId, createdAt)),
                         FileExtension(format, compression));
    }
  }
}
