/** Renaming the files of a directory one after the other, in place. */
module Renaming {
  /** A rename replaces whatever had the new name. */
  function Renamed<N, F>(files: map<N, F>, oldName: N, newName: N): map<N, F>
    requires oldName in files
  {
    (files - {oldName})[newName := files[oldName]]
  }

  /** A listing of the directory: every file once, in some order. */
  predicate Lists<N(==), F>(listing: seq<N>, files: map<N, F>) {
    && (forall i, j | 0 <= i < j < |listing| :: listing[i] != listing[j])
    && (forall i | 0 <= i < |listing| :: listing[i] in files)
    && (forall name | name in files :: name in listing)
  }

  /** The directory after the first `n` renames; a file whose turn has not come is always still there. */
  function RenameFirst<N, F>(files: map<N, F>, listing: seq<N>, names: seq<N>, n: nat): (result: map<N, F>)
    requires Lists(listing, files) && n <= |listing| == |names|
    ensures forall k | n <= k < |listing| :: listing[k] in result
  {
    if n == 0 then files else Renamed(RenameFirst(files, listing, names, n - 1), listing[n - 1], names[n - 1])
  }

  function RenameAll<N, F>(files: map<N, F>, listing: seq<N>, names: seq<N>): map<N, F>
    requires Lists(listing, files) && |listing| == |names|
  {
    RenameFirst(files, listing, names, |listing|)
  }

  /** No new name is given twice or is still the name of a later file. */
  predicate NoConflict<N(==)>(listing: seq<N>, names: seq<N>)
    requires |listing| == |names|
  {
    forall i, j | 0 <= i < j < |listing| :: names[i] != names[j] && names[i] != listing[j]
  }

  /** One of the first `n` new names, or an old name that is still to be replaced. */
  predicate IsCurrent<N(==)>(name: N, listing: seq<N>, names: seq<N>, n: nat)
    requires n <= |listing| == |names|
  {
    || (exists i | 0 <= i < n :: names[i] == name)
    || (exists k | n <= k < |listing| :: listing[k] == name)
  }

  lemma {:induction false} NamesAreCurrent<N, F>(files: map<N, F>, listing: seq<N>, names: seq<N>, n: nat, name: N)
    requires Lists(listing, files) && n <= |listing| == |names| && name in RenameFirst(files, listing, names, n)
    ensures IsCurrent(name, listing, names, n)
  {
    if n > 0 && name != names[n - 1] {
      NamesAreCurrent(files, listing, names, n - 1, name);
    }
  }

  /** One rename loses a file exactly when the new name belongs to another file. */
  lemma RenamedSize<N, F>(files: map<N, F>, oldName: N, newName: N)
    requires oldName in files
    ensures |Renamed(files, oldName, newName)| ==
            if newName in files && newName != oldName then |files| - 1 else |files|
  {
    var without := files - {oldName};
    assert without.Keys == files.Keys - {oldName};
    assert |without.Keys| == |files.Keys| - 1;
    assert Renamed(files, oldName, newName).Keys == without.Keys + {newName};
    assert |files.Keys| == |files| && |Renamed(files, oldName, newName).Keys| == |Renamed(files, oldName, newName)|;
  }

  lemma {:induction false} WaitingFileIsKept<N, F>(files: map<N, F>, listing: seq<N>, names: seq<N>, n: nat, k: nat)
    requires Lists(listing, files) && n <= k < |listing| == |names| && NoConflict(listing, names)
    ensures RenameFirst(files, listing, names, n)[listing[k]] == files[listing[k]]
  {
    if n > 0 {
      WaitingFileIsKept(files, listing, names, n - 1, k);
    }
  }

  lemma {:induction false} RenamedFileIsKept<N, F>(files: map<N, F>, listing: seq<N>, names: seq<N>, n: nat, i: nat)
    requires Lists(listing, files) && i < n <= |listing| == |names| && NoConflict(listing, names)
    ensures names[i] in RenameFirst(files, listing, names, n)
    ensures RenameFirst(files, listing, names, n)[names[i]] == files[listing[i]]
    decreases n - i
  {
    if i == n - 1 {
      WaitingFileIsKept(files, listing, names, i, i);
    } else {
      RenamedFileIsKept(files, listing, names, n - 1, i);
    }
  }

  lemma NewNameIsFree<N, F>(files: map<N, F>, listing: seq<N>, names: seq<N>, i: nat)
    requires Lists(listing, files) && i < |listing| == |names| && NoConflict(listing, names)
    ensures names[i] in RenameFirst(files, listing, names, i) ==> names[i] == listing[i]
  {
    if names[i] in RenameFirst(files, listing, names, i) {
      NamesAreCurrent(files, listing, names, i, names[i]);
    }
  }

  lemma {:induction false} NoFileIsLost<N, F>(files: map<N, F>, listing: seq<N>, names: seq<N>, n: nat)
    requires Lists(listing, files) && n <= |listing| == |names| && NoConflict(listing, names)
    ensures |RenameFirst(files, listing, names, n)| == |files|
  {
    if n > 0 {
      NoFileIsLost(files, listing, names, n - 1);
      NewNameIsFree(files, listing, names, n - 1);
      RenamedSize(RenameFirst(files, listing, names, n - 1), listing[n - 1], names[n - 1]);
    }
  }

  /** Without conflicts the directory holds exactly the new names, each with the contents of its file. */
  lemma RenamingArrives<N, F>(files: map<N, F>, listing: seq<N>, names: seq<N>)
    requires Lists(listing, files) && |listing| == |names| && NoConflict(listing, names)
    ensures var result := RenameAll(files, listing, names);
            && (forall i | 0 <= i < |listing| :: names[i] in result && result[names[i]] == files[listing[i]])
            && (forall name | name in result :: name in names)
  {
    var result := RenameAll(files, listing, names);
    forall i | 0 <= i < |listing|
      ensures names[i] in result && result[names[i]] == files[listing[i]]
    {
      RenamedFileIsKept(files, listing, names, |listing|, i);
    }
    forall name | name in result
      ensures name in names
    {
      NamesAreCurrent(files, listing, names, |listing|, name);
    }
  }

  lemma {:induction false} NeverMore<N, F>(files: map<N, F>, listing: seq<N>, names: seq<N>, m: nat, n: nat)
    requires Lists(listing, files) && m <= n <= |listing| == |names|
    ensures |RenameFirst(files, listing, names, n)| <= |RenameFirst(files, listing, names, m)|
    decreases n - m
  {
    if m < n {
      NeverMore(files, listing, names, m, n - 1);
      RenamedSize(RenameFirst(files, listing, names, n - 1), listing[n - 1], names[n - 1]);
    }
  }

  /** A name that was given stays, unless a later file still has it. */
  lemma {:induction false} GivenNameStays<N, F>(files: map<N, F>, listing: seq<N>, names: seq<N>, i: nat, n: nat)
    requires Lists(listing, files) && i < n <= |listing| == |names|
    requires forall j | i < j < n :: names[i] != listing[j]
    ensures names[i] in RenameFirst(files, listing, names, n)
    decreases n - i
  {
    if i + 1 < n {
      GivenNameStays(files, listing, names, i, n - 1);
    }
  }

  /** A rename onto the name of another file costs that file for good. */
  lemma ClobberingLoses<N, F>(files: map<N, F>, listing: seq<N>, names: seq<N>, i: nat)
    requires Lists(listing, files) && i < |listing| == |names|
    requires names[i] in RenameFirst(files, listing, names, i) && names[i] != listing[i]
    ensures |RenameAll(files, listing, names)| < |files|
  {
    NeverMore(files, listing, names, 0, i);
    RenamedSize(RenameFirst(files, listing, names, i), listing[i], names[i]);
    NeverMore(files, listing, names, i + 1, |listing|);
  }

  lemma ConflictLoses<N, F>(files: map<N, F>, listing: seq<N>, names: seq<N>)
    requires Lists(listing, files) && |listing| == |names| && !NoConflict(listing, names)
    ensures |RenameAll(files, listing, names)| < |files|
  {
    var i, j :| 0 <= i < j < |listing| && (names[i] == names[j] || names[i] == listing[j]);
    if k :| i < k <= j && names[i] == listing[k] {
      ClobberingLoses(files, listing, names, i);
    } else {
      GivenNameStays(files, listing, names, i, j);
      ClobberingLoses(files, listing, names, j);
    }
  }

  /**
   The loop keeps every file if and only if no new name is repeated or still belongs to a later
   file of the listing.
   */
  lemma RenamingLosesNothingIff<N, F>(files: map<N, F>, listing: seq<N>, names: seq<N>)
    requires Lists(listing, files) && |listing| == |names|
    ensures |RenameAll(files, listing, names)| == |files| <==> NoConflict(listing, names)
    ensures |RenameAll(files, listing, names)| <= |files|
  {
    NeverMore(files, listing, names, 0, |listing|);
    if NoConflict(listing, names) {
      NoFileIsLost(files, listing, names, |listing|);
    } else {
      ConflictLoses(files, listing, names);
    }
  }

  // ---------------------------------------------------------------------------
  // Moving some of the files to another directory
  // ---------------------------------------------------------------------------

  function Selected<N, F>(files: map<N, F>, wanted: N -> bool): map<N, F> {
    map name | name in files && wanted(name) :: files[name]
  }

  lemma SubsetSize<T>(small: set<T>, large: set<T>)
    requires small <= large
    ensures |small| <= |large| && (|small| == |large| <==> small == large)
  {
    assert large == small + (large - small);
  }

  lemma MapSize<N, F>(files: map<N, F>)
    ensures |files| == |files.Keys|
  {
  }

  lemma SelectedSize<N, F>(files: map<N, F>, wanted: N -> bool)
    ensures |Selected(files, wanted)| <= |files|
    ensures |Selected(files, wanted)| == |files| <==> forall name | name in files :: wanted(name)
  {
    var kept := set name | name in files.Keys && wanted(name);
    assert Selected(files, wanted).Keys == kept;
    SubsetSize(kept, files.Keys);
    MapSize(Selected(files, wanted));
    MapSize(files);
    if kept == files.Keys {
      assert forall name | name in files :: name in kept;
    } else {
      assert exists name :: name in files.Keys && name !in kept;
    }
  }

  lemma MergedKeys<T>(moved: set<T>, existing: set<T>)
    ensures |moved + existing| <= |moved| + |existing|
    ensures |moved + existing| == |moved| + |existing| <==> moved !! existing
  {
    assert moved + existing == (moved - existing) + existing;
    SubsetSize(moved - existing, moved);
    assert moved - existing == moved <==> moved !! existing;
  }

  lemma MergedSize<N, F>(moved: map<N, F>, existing: map<N, F>)
    ensures |moved + existing| <= |moved| + |existing|
    ensures |moved + existing| == |moved| + |existing| <==> moved.Keys !! existing.Keys
  {
    assert (moved + existing).Keys == moved.Keys + existing.Keys;
    MergedKeys(moved.Keys, existing.Keys);
    MapSize(moved + existing);
    MapSize(moved);
    MapSize(existing);
  }

  /** Of the renamed files only the wanted ones are moved, and none onto an existing name. */
  function Delivered<N, F>(
      files: map<N, F>, listing: seq<N>, names: seq<N>, wanted: N -> bool, existing: map<N, F>): map<N, F>
    requires Lists(listing, files) && |listing| == |names|
  {
    Selected(RenameAll(files, listing, names), wanted) + existing
  }

  /** All files are delivered if and only if no name is lost, unwanted, or taken at the target. */
  lemma EverythingIsDeliveredIff<N, F>(
      files: map<N, F>, listing: seq<N>, names: seq<N>, wanted: N -> bool, existing: map<N, F>)
    requires Lists(listing, files) && |listing| == |names|
    ensures |Delivered(files, listing, names, wanted, existing)| == |files| + |existing| <==>
            NoConflict(listing, names) && forall i | 0 <= i < |listing| :: wanted(names[i]) && names[i] !in existing
  {
    var renamed := RenameAll(files, listing, names);
    var moved := Selected(renamed, wanted);
    RenamingLosesNothingIff(files, listing, names);
    SelectedSize(renamed, wanted);
    MergedSize(moved, existing);
    if NoConflict(listing, names) {
      RenamingArrives(files, listing, names);
      WantedAndFreeIff(renamed, names, wanted, existing);
    }
  }

  lemma WantedAndFreeIff<N, F>(renamed: map<N, F>, names: seq<N>, wanted: N -> bool, existing: map<N, F>)
    requires forall i | 0 <= i < |names| :: names[i] in renamed
    requires forall name | name in renamed :: name in names
    ensures (forall i | 0 <= i < |names| :: wanted(names[i]) && names[i] !in existing) <==>
            (forall name | name in renamed :: wanted(name)) && Selected(renamed, wanted).Keys !! existing.Keys
  {
    if forall i | 0 <= i < |names| :: wanted(names[i]) && names[i] !in existing {
      assert forall name | name in renamed :: wanted(name);
    } else {
      var i :| 0 <= i < |names| && (!wanted(names[i]) || names[i] in existing);
      if wanted(names[i]) {
        assert names[i] in Selected(renamed, wanted).Keys;
      }
    }
  }

  /** Without conflicts, what is wanted and free arrives with its own contents, and what was at the target stays. */
  lemma DeliveredWithContents<N, F>(
      files: map<N, F>, listing: seq<N>, names: seq<N>, wanted: N -> bool, existing: map<N, F>)
    requires Lists(listing, files) && |listing| == |names| && NoConflict(listing, names)
    ensures var result := Delivered(files, listing, names, wanted, existing);
            && (forall i | 0 <= i < |listing| && wanted(names[i]) && names[i] !in existing ::
                  names[i] in result && result[names[i]] == files[listing[i]])
            && (forall name | name in existing :: name in result && result[name] == existing[name])
            && forall name | name in result && name !in existing :: wanted(name) && name in names
  {
    RenamingArrives(files, listing, names);
  }
}
