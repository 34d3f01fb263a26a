/**
 Restoring a backup: existing data is renamed into a recovery directory, then the validated
 files are renamed into place.  Every rename can be the last thing that happens.
 */
module Restore {
  type Content = nat

  /** The five things a restore may find: the database, its two side files and two directories.
      Each is at its original path, in the recovery directory, or waiting in the staging area. */
  datatype Item = Database | Wal | Shm | Images | Attachments
  datatype Path = Original(item: Item) | Recovered(item: Item) | Staged(item: Item)

  type Files = map<Path, Content>

  const ALL: seq<Item> := [Database, Wal, Shm, Images, Attachments]
  const INSTALLED: seq<Item> := [Database, Images, Attachments]

  function Renamed(fs: Files, from: Path, to: Path): Files
    requires from in fs
  {
    (fs - {from})[to := fs[from]]
  }

  /** Everything that was there before is at its original path or in the recovery directory. */
  predicate Preserved(before: Files, fs: Files) {
    forall item: Item :: Original(item) in before ==>
      (Original(item) in fs && fs[Original(item)] == before[Original(item)])
      || (Recovered(item) in fs && fs[Recovered(item)] == before[Original(item)])
  }

  predicate MovedAside(before: Files, fs: Files, done: seq<Item>) {
    (forall item: Item ::
       if item in done then Original(item) !in fs && (Original(item) in before ==> Recovered(item) in fs && fs[Recovered(item)] == before[Original(item)])
       else (Original(item) in fs <==> Original(item) in before) && (Original(item) in before ==> fs[Original(item)] == before[Original(item)])
            && Recovered(item) !in fs)
    && (forall item: Item :: (Staged(item) in fs <==> Staged(item) in before) && (Staged(item) in before ==> fs[Staged(item)] == before[Staged(item)]))
  }

  /** The staging area holds a validated archive: a database, never side files. */
  predicate Validated(fs: Files) { Staged(Database) in fs && Staged(Wal) !in fs && Staged(Shm) !in fs }

  ghost predicate OneRename(a: Files, b: Files, from: Path, to: Path) { from in a && b == Renamed(a, from, to) }

  ghost predicate Renames(a: Files, b: Files) { exists from, to :: OneRename(a, b, from, to) }

  /** The directory before the first rename and after each of them. */
  ghost predicate Trace(before: Files, states: seq<Files>, after: Files) {
    states != [] && states[0] == before && states[|states| - 1] == after
    && forall i, j :: 0 <= i && j == i + 1 < |states| ==> Renames(states[i], states[j])
  }

  lemma TraceStarts(fs: Files)
    ensures Trace(fs, [fs], fs)
  {
  }

  lemma TraceExtended(before: Files, states: seq<Files>, after: Files, from: Path, to: Path)
    requires Trace(before, states, after) && from in after
    ensures Trace(before, states + [Renamed(after, from, to)], Renamed(after, from, to))
  {
    var longer := states + [Renamed(after, from, to)];
    forall i, j | 0 <= i && j == i + 1 < |longer| ensures Renames(longer[i], longer[j]) {
      if j < |states| {
        assert Renames(states[i], states[j]);
      } else {
        assert OneRename(longer[i], longer[j], from, to);
        assert Renames(longer[i], longer[j]);
      }
    }
  }

  ghost predicate AllPreserved(before: Files, states: seq<Files>) { forall i :: 0 <= i < |states| ==> Preserved(before, states[i]) }

  class Directory {
    var files: Files

    /** `budget` renames succeed, the next one fails; `states` is the directory before and after
        every rename, from the old one to the one the run leaves, even if it stops half-way. */
    method Restore(budget: nat) returns (ok: bool, ghost states: seq<Files>)
      requires Validated(files) && forall item: Item :: Recovered(item) !in files
      modifies this
      ensures Trace(old(files), states, files) && |states| <= budget + 1 && (!ok ==> |states| == budget + 1)
      ensures forall i :: 0 <= i < |states| ==> Preserved(old(files), states[i])
      ensures ok ==> forall item: Item ::
                (Original(item) in files <==> Staged(item) in old(files))
                && (Staged(item) in old(files) ==> files[Original(item)] == old(files)[Staged(item)])
                && (Original(item) in old(files) ==> Recovered(item) in files && files[Recovered(item)] == old(files)[Original(item)])
    {
      hide Trace, Preserved;
      var left: nat;
      ok, left, states := MoveAside(budget);
      if ok {
        AllItems();
        ok, left, states := Install(left, old(files), states);
      }
    }

    method MoveAside(budget: nat) returns (ok: bool, left: nat, ghost states: seq<Files>)
      requires forall item: Item :: Recovered(item) !in files
      modifies this
      ensures Trace(old(files), states, files) && AllPreserved(old(files), states)
      ensures |states| - 1 + left == budget && (!ok ==> left == 0)
      ensures ok ==> MovedAside(old(files), files, ALL)
    {
      hide Trace, Preserved;
      left, states := budget, [files];
      TraceStarts(files);
      ghost var before := files;
      assert AllPreserved(before, states) by { StillThere(before, files, ALL[..0]); }
      for i := 0 to |ALL|
        invariant MovedAside(before, files, ALL[..i]) && AllPreserved(before, states)
        invariant Trace(before, states, files) && |states| - 1 + left == budget
      {
        var item := ALL[i];
        assert item !in ALL[..i] && ALL[..i + 1] == ALL[..i] + [item];
        if Original(item) in files {
          if left == 0 {
            return false, left, states;
          }
          left := left - 1;
          TraceExtended(before, states, files, Original(item), Recovered(item));
          files := Renamed(files, Original(item), Recovered(item));
          states := states + [files];
          StillThere(before, files, ALL[..i + 1]);
        }
      }
      assert ALL[..|ALL|] == ALL;
      ok := true;
    }

    method Install(budget: nat, ghost before: Files, ghost earlier: seq<Files>)
      returns (ok: bool, left: nat, ghost states: seq<Files>)
      requires Validated(before) && (forall item: Item :: item in ALL) && MovedAside(before, files, ALL)
      requires Trace(before, earlier, files) && AllPreserved(before, earlier)
      modifies this
      ensures Trace(before, states, files) && AllPreserved(before, states)
      ensures |states| + left == |earlier| + budget && (!ok ==> left == 0)
      ensures ok ==> Installing(old(files), files, INSTALLED)
    {
      hide Trace, Preserved;
      left, states := budget, earlier;
      ghost var cleared := files;
      for i := 0 to |INSTALLED|
        invariant Installing(cleared, files, INSTALLED[..i]) && AllPreserved(before, states)
        invariant Trace(before, states, files) && |states| + left == |earlier| + budget
      {
        var item := INSTALLED[i];
        assert item !in INSTALLED[..i] && INSTALLED[..i + 1] == INSTALLED[..i] + [item];
        if Staged(item) in files {
          if left == 0 {
            return false, left, states;
          }
          left := left - 1;
          TraceExtended(before, states, files, Staged(item), Original(item));
          files := Renamed(files, Staged(item), Original(item));
          states := states + [files];
          KeptAside(before, cleared, files);
        }
      }
      assert INSTALLED[..|INSTALLED|] == INSTALLED;
      ok := true;
    }
  }

  lemma StillThere(before: Files, fs: Files, done: seq<Item>)
    requires MovedAside(before, fs, done)
    ensures Preserved(before, fs)
  {
  }

  lemma KeptAside(before: Files, cleared: Files, fs: Files)
    requires MovedAside(before, cleared, ALL) && forall item: Item :: item in ALL
    requires forall item: Item :: Recovered(item) in cleared ==> Recovered(item) in fs && fs[Recovered(item)] == cleared[Recovered(item)]
    ensures Preserved(before, fs)
  {
  }

  lemma AllItems()
    ensures forall item: Item :: item in ALL
  {
    forall item: Item ensures item in ALL {
      match item {
        case Database => assert ALL[0] == item;
        case Wal => assert ALL[1] == item;
        case Shm => assert ALL[2] == item;
        case Images => assert ALL[3] == item;
        case Attachments => assert ALL[4] == item;
      }
    }
  }

  /** Staged items are put in place one after the other; the recovery directory is not touched. */
  predicate Installing(cleared: Files, fs: Files, done: seq<Item>) {
    forall item: Item ::
      (Recovered(item) in fs <==> Recovered(item) in cleared) && (Recovered(item) in cleared ==> fs[Recovered(item)] == cleared[Recovered(item)])
      && (if item in done then Staged(item) !in fs && (Original(item) in fs <==> Staged(item) in cleared)
                               && (Staged(item) in cleared ==> fs[Original(item)] == cleared[Staged(item)])
          else Original(item) !in fs && (Staged(item) in fs <==> Staged(item) in cleared)
               && (Staged(item) in cleared ==> fs[Staged(item)] == cleared[Staged(item)]))
  }
}
