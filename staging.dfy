/**
 * The local staging folder and the three `FileService` operations on it
 * (Services/fileService.py): `ensure_clean_folder`, `join_csv_files_in_folder` and
 * `sort_csv_by_time`. The folder is a map from entry name to entry plus the order in
 * which `os.listdir` returns the names; a regular file is the list of its lines.
 */
module Staging {
  import opened Wrappers
  import opened Listings
  import CsvSort

  /** One directory entry. A link stores the lines of the regular file it resolves to, if any. */
  datatype Entry =
    | File(lines: seq<string>)
    | Link(target: Option<seq<string>>)
    | Directory
    | Special   // a FIFO, socket or device node: neither a file, a link nor a directory

  datatype FsError =
    | NotFound      // FileNotFoundError
    | IsADirectory  // IsADirectoryError
    | CannotOpen    // any other failure to open the entry

  datatype StagingError = Fs(fs: FsError) | Sort(sort: CsvSort.SortError)

  /** `os.path.isfile`: a regular file, or a link that resolves to one. */
  predicate IsFile(e: Entry)
  {
    e.File? || (e.Link? && e.target.Some?)
  }

  /** The lines read through the entry. */
  function LinesOf(e: Entry): seq<string>
  {
    match e
    case File(lines) => lines
    case Link(Some(lines)) => lines
    case _ => []
  }

  /**
   * Why `open(path, "w")` fails on the entry found at the path, if it does. A link is
   * opened through, and a dangling one has its target created.
   */
  function WriteError(e: Option<Entry>): Option<FsError>
  {
    match e
    case None => None
    case Some(File(_)) => None
    case Some(Link(_)) => None
    case Some(Directory) => Some(IsADirectory)
    case Some(Special) => Some(CannotOpen)
  }

  /** The entry after `open(path, "w")` and writing `lines`: a link is written through. */
  function Written(e: Option<Entry>, lines: seq<string>): Entry
    requires WriteError(e).None?
  {
    if e.Some? && e.value.Link? then Link(Some(lines)) else File(lines)
  }

  /** Why `open(path, "r")` fails on the entry found at the path, if it does. */
  function ReadError(e: Option<Entry>): Option<FsError>
  {
    match e
    case None => Some(NotFound)
    case Some(File(_)) => None
    case Some(Link(t)) => if t.Some? then None else Some(NotFound)
    case Some(Directory) => Some(IsADirectory)
    case Some(Special) => Some(CannotOpen)
  }

  /** What was written is what is read back, through a file or a link alike. */
  lemma {:induction false} WrittenLines(e: Option<Entry>, lines: seq<string>)
    requires WriteError(e).None?
    ensures var w := Written(e, lines);
            IsFile(w) && LinesOf(w) == lines && ReadError(Some(w)).None? && WriteError(Some(w)).None?
  {
  }

  /** A second write replaces the first one's lines and leaves the kind of entry as it was. */
  lemma {:induction false} WrittenTwice(e: Option<Entry>, first: seq<string>, second: seq<string>)
    requires WriteError(e).None?
    ensures WriteError(Some(Written(e, first))).None?
    ensures Written(Some(Written(e, first)), second) == Written(e, second)
  {
  }

  /** Every entry is a regular file, as in a fresh folder that only files were written to. */
  predicate OnlyFiles<N>(entries: map<N, Entry>)
  {
    forall n :: n in entries ==> entries[n].File?
  }

  function Lookup<N(==)>(m: map<N, Entry>, name: N): Option<Entry>
  {
    if name in m then Some(m[name]) else None
  }


  /** What `ensure_clean_folder` removes: files, links and directories (a directory with all it holds). */
  predicate Removable(e: Entry)
  {
    !e.Special?
  }

  function RemovableNames<N(==)>(order: seq<N>, entries: map<N, Entry>): set<N>
  {
    set n | n in order && n in entries && Removable(entries[n])
  }

  /** An entry `join_csv_files_in_folder` merges into `output`: another name, a file, at least one line. */
  predicate IsInput<N(==)>(name: N, output: N, entries: map<N, Entry>)
  {
    name != output && name in entries && IsFile(entries[name]) && LinesOf(entries[name]) != []
  }

  /** The names `join_csv_files_in_folder` consumes, in listing order. */
  function Consumed<N(==)>(names: seq<N>, output: N, entries: map<N, Entry>): seq<N>
  {
    if names == [] then []
    else
      var init, n := names[..|names| - 1], names[|names| - 1];
      Consumed(init, output, entries) + (if IsInput(n, output, entries) then [n] else [])
  }

  lemma {:induction false} ConsumedMembers<N>(names: seq<N>, output: N, entries: map<N, Entry>)
    ensures forall n :: n in Consumed(names, output, entries) <==> n in names && IsInput(n, output, entries)
    decreases |names|
  {
    if names != [] {
      ConsumedMembers(names[..|names| - 1], output, entries);
      assert names == names[..|names| - 1] + [names[|names| - 1]];
    }
  }

  /** The contents of the named files, in order. */
  function FilesOf<N(==)>(names: seq<N>, entries: map<N, Entry>): (r: seq<seq<string>>)
    ensures |r| == |names|
  {
    if names == [] then []
    else
      var n := names[|names| - 1];
      FilesOf(names[..|names| - 1], entries) + [if n in entries then LinesOf(entries[n]) else []]
  }

  /** The output of the join: all lines of the first file, then every later file without its first line. */
  function Concatenate<L>(files: seq<seq<L>>): seq<L>
  {
    if |files| == 0 then []
    else if |files| == 1 then files[0]
    else Concatenate(files[..|files| - 1]) + Body(files[|files| - 1])
  }

  /** The lines of several files one after the other. */
  function Flatten<L>(files: seq<seq<L>>): seq<L>
  {
    if files == [] then [] else Flatten(files[..|files| - 1]) + files[|files| - 1]
  }

  function Body<L>(file: seq<L>): seq<L>
  {
    if file == [] then [] else file[1..]
  }

  /** Files that all begin with the same header line. */
  ghost predicate SameHeader<L>(files: seq<seq<L>>, header: L)
  {
    forall i :: 0 <= i < |files| ==> files[i] != [] && files[i][0] == header
  }

  /** Merging files that share a header yields that header once, then every file's data lines in order. */
  lemma {:induction false} ConcatenateSameHeader<L>(files: seq<seq<L>>, header: L)
    requires files != [] && SameHeader(files, header)
    ensures Concatenate(files) == [header] + Flatten(MapBody(files))
    decreases |files|
  {
    var init, last := files[..|files| - 1], files[|files| - 1];
    assert files == init + [last];
    if init == [] {
      ConcatenateFirst(last, header);
    } else {
      assert SameHeader(init, header);
      ConcatenateSameHeader(init, header);
      ConcatenateNext(init, last, header);
    }
  }

  lemma {:induction false} ConcatenateFirst<L>(file: seq<L>, header: L)
    requires file != [] && file[0] == header
    ensures Concatenate([file]) == [header] + Flatten(MapBody([file]))
  {
    MapBodySnoc([], file);
    FlattenSnoc([], Body(file));
    assert [] + [file] == [file];
    assert file == [header] + Body(file);
  }

  lemma {:induction false} ConcatenateNext<L>(init: seq<seq<L>>, file: seq<L>, header: L)
    requires init != [] && Concatenate(init) == [header] + Flatten(MapBody(init))
    ensures Concatenate(init + [file]) == [header] + Flatten(MapBody(init + [file]))
  {
    var fs := init + [file];
    assert fs[..|fs| - 1] == init;
    MapBodySnoc(init, file);
    FlattenSnoc(MapBody(init), Body(file));
  }

  lemma {:induction false} FlattenSnoc<L>(files: seq<seq<L>>, file: seq<L>)
    ensures Flatten(files + [file]) == Flatten(files) + file
  {
    var fs := files + [file];
    assert fs[..|files|] == files;
  }

  lemma {:induction false} MapBodySnoc<L>(files: seq<seq<L>>, file: seq<L>)
    ensures MapBody(files + [file]) == MapBody(files) + [Body(file)]
  {
    var fs := files + [file];
    assert fs[..|files|] == files;
  }

  function MapBody<L>(files: seq<seq<L>>): (r: seq<seq<L>>)
    ensures |r| == |files|
    ensures forall i :: 0 <= i < |files| ==> r[i] == Body(files[i])
  {
    if files == [] then [] else MapBody(files[..|files| - 1]) + [Body(files[|files| - 1])]
  }

  /** `ensure_clean_folder` on the folder's state: create it when absent, else remove every removable entry. */
  function CleanEntries<N(==)>(present: bool, order: seq<N>, entries: map<N, Entry>): map<N, Entry>
  {
    if !present then map[] else entries - RemovableNames(order, entries)
  }

  /** A clean folder is left as it is by a second clean. */
  lemma {:induction false} CleanIdempotent<N>(order: seq<N>, entries: map<N, Entry>)
    requires Listing(order, entries)
    ensures var once := CleanEntries(true, order, entries);
            var order' := Remaining(order, RemovableNames(order, entries));
            && (forall n :: n in once ==> once[n].Special?)
            && CleanEntries(true, order', once) == once
            && Remaining(order', RemovableNames(order', once)) == order'
  {
    var once := CleanEntries(true, order, entries);
    var order' := Remaining(order, RemovableNames(order, entries));
    var gone := RemovableNames(order, entries);
    ListingMembers(order, entries);
    assert forall n :: n in once ==> once[n].Special? by {
      forall n | n in once ensures once[n].Special? {
        assert n in entries && n !in gone && n in order;
      }
    }
    assert RemovableNames(order', once) == {};
    assert once - {} == once;
    RemainingNone(order');
  }

  /** One step of the cleaning loop: the next listed name is still present, and is removed iff removable. */
  lemma {:induction false} CleanStep<N>(names: seq<N>, entries0: map<N, Entry>, i: nat, gone: set<N>)
    requires Listing(names, entries0) && i < |names|
    requires gone == RemovableNames(names[..i], entries0)
    ensures names[i] in entries0 - gone
    ensures !Removable(entries0[names[i]]) ==> RemovableNames(names[..i + 1], entries0) == gone
    ensures Removable(entries0[names[i]]) ==>
              && RemovableNames(names[..i + 1], entries0) == gone + {names[i]}
              && (entries0 - gone) - {names[i]} == entries0 - (gone + {names[i]})
              && Remaining(Remaining(names, gone), {names[i]}) == Remaining(names, gone + {names[i]})
  {
    ListingMembers(names, entries0);
    ListingDistinct(names, entries0);
    DistinctNotBefore(names, i);
    RemovableNamesStep(names[..i], names[i], entries0);
    assert names[..i + 1] == names[..i] + [names[i]];
    RemainingAdd(names, gone, names[i]);
    MinusAdd(entries0, gone, names[i]);
  }

  lemma {:induction false} RemovableNamesStep<N>(names: seq<N>, name: N, entries: map<N, Entry>)
    ensures RemovableNames(names + [name], entries) ==
            RemovableNames(names, entries) + (if name in entries && Removable(entries[name]) then {name} else {})
  {
  }

  lemma {:induction false} MinusAdd<N>(m: map<N, Entry>, gone: set<N>, name: N)
    ensures (m - gone) - {name} == m - (gone + {name})
  {
  }

  /** One step of the joining loop: which name is consumed next, and what the output then holds. */
  lemma {:induction false} JoinStep<N>(names: seq<N>, output: N, entries0: map<N, Entry>, i: nat)
    requires Listing(names, entries0) && i < |names|
    ensures var done, n := Consumed(names[..i], output, entries0), names[i];
            var take := IsInput(n, output, entries0);
            && n in entries0 && n !in SetOf(done)
            && Consumed(names[..i + 1], output, entries0) == done + (if take then [n] else [])
            && (take ==> FilesOf(done + [n], entries0) == FilesOf(done, entries0) + [LinesOf(entries0[n])])
            && (take ==> SetOf(done + [n]) == SetOf(done) + {n})
  {
    ListingMembers(names, entries0);
    ListingDistinct(names, entries0);
    DistinctNotBefore(names, i);
    assert names[..i + 1] == names[..i] + [names[i]];
    var done, n := Consumed(names[..i], output, entries0), names[i];
    ConsumedMembers(names[..i], output, entries0);
    SetOfMembers(done);
    if IsInput(n, output, entries0) {
      var fs := FilesOf(done + [n], entries0);
      assert fs[..|done|] == FilesOf(done, entries0);
      var d := done + [n];
      assert d[..|d| - 1] == done;
    }
  }

  lemma {:induction false} ConcatenateStep<L>(files: seq<seq<L>>, lines: seq<L>)
    requires lines != []
    ensures Concatenate(files + [lines]) == if files == [] then lines else Concatenate(files) + lines[1..]
  {
    var fs := files + [lines];
    assert fs[..|files|] == files;
  }

  /** The lines the output holds once the join has gone through `names`. */
  function Merged<N(==)>(entries: map<N, Entry>, output: N, names: seq<N>): seq<string>
  {
    Concatenate(FilesOf(Consumed(names, output, entries), entries))
  }

  /** The folder once the output has been opened for writing and the join has gone through `names`. */
  function JoinedEntries<N(==)>(entries: map<N, Entry>, output: N, names: seq<N>): map<N, Entry>
    requires WriteError(Lookup(entries, output)).None?
  {
    (entries - SetOf(Consumed(names, output, entries)))[output := Written(Lookup(entries, output), Merged(entries, output, names))]
  }

  lemma {:induction false} JoinedStart<N>(entries: map<N, Entry>, output: N)
    requires WriteError(Lookup(entries, output)).None?
    ensures Consumed([], output, entries) == [] && SetOf(Consumed([], output, entries)) == {}
    ensures Merged(entries, output, []) == []
    ensures JoinedEntries(entries, output, []) == entries[output := Written(Lookup(entries, output), [])]
  {
    assert SetOf<N>([]) == {};
    assert entries - {} == entries;
  }

  /** At each step of the join, an entry other than the output still holds what it held at the start. */
  lemma {:induction false} JoinedCurrent<N>(names: seq<N>, output: N, entries: map<N, Entry>, i: nat)
    requires Listing(names, entries) && i < |names| && WriteError(Lookup(entries, output)).None?
    ensures var now, n := JoinedEntries(entries, output, names[..i]), names[i];
            && (IsInput(n, output, now) <==> IsInput(n, output, entries))
            && (n != output ==> n in now && now[n] == entries[n])
  {
    JoinStep(names, output, entries, i);
  }

  /** A name that is not an input leaves the join's state as it is. */
  lemma {:induction false} JoinedSkip<N>(names: seq<N>, output: N, entries: map<N, Entry>, i: nat)
    requires Listing(names, entries) && i < |names| && WriteError(Lookup(entries, output)).None?
    requires !IsInput(names[i], output, entries)
    ensures Consumed(names[..i + 1], output, entries) == Consumed(names[..i], output, entries)
    ensures Merged(entries, output, names[..i + 1]) == Merged(entries, output, names[..i])
    ensures JoinedEntries(entries, output, names[..i + 1]) == JoinedEntries(entries, output, names[..i])
  {
    JoinStep(names, output, entries, i);
  }

  /** An input is appended to the output (whole if it is the first, else without its header) and then removed. */
  lemma {:induction false} JoinedTake<N>(names: seq<N>, output: N, entries: map<N, Entry>, i: nat)
    requires Listing(names, entries) && i < |names| && WriteError(Lookup(entries, output)).None?
    requires IsInput(names[i], output, entries)
    ensures var pre, n := names[..i], names[i];
            var lines := LinesOf(entries[n]);
            var m := Merged(entries, output, names[..i + 1]);
            && Consumed(names[..i + 1], output, entries) != []
            && SetOf(Consumed(names[..i + 1], output, entries)) == SetOf(Consumed(pre, output, entries)) + {n}
            && m == (if Consumed(pre, output, entries) == [] then lines else Merged(entries, output, pre) + lines[1..])
            && JoinedEntries(entries, output, names[..i + 1]) ==
                 JoinedEntries(entries, output, pre)[output := Written(Lookup(entries, output), m)] - {n}
  {
    JoinStep(names, output, entries, i);
    var pre, n := names[..i], names[i];
    var done := Consumed(pre, output, entries);
    var lines := LinesOf(entries[n]);
    ConcatenateStep(FilesOf(done, entries), lines);
    var out := Lookup(entries, output);
    UpdateMinus(entries, SetOf(done), output, n, Written(out, Merged(entries, output, pre)),
                Written(out, Merged(entries, output, names[..i + 1])));
  }

  lemma {:induction false} UpdateMinus<N>(m: map<N, Entry>, gone: set<N>, k: N, n: N, v1: Entry, v2: Entry)
    requires n != k
    ensures ((m - gone)[k := v1])[k := v2] - {n} == (m - (gone + {n}))[k := v2]
  {
  }

  /**
   * What the join leaves in the folder: the output holds the merged lines; any other name is
   * still there, with its entry unchanged, exactly when it was not one of the inputs.
   */
  lemma {:induction false} JoinedEntriesContents<N>(entries: map<N, Entry>, output: N, names: seq<N>)
    requires WriteError(Lookup(entries, output)).None?
    ensures var j := JoinedEntries(entries, output, names);
            && output in j && j[output] == Written(Lookup(entries, output), Merged(entries, output, names))
            && (forall n :: n != output ==> (n in j <==> n in entries && !(n in names && IsInput(n, output, entries))))
            && (forall n :: n in j && n != output ==> j[n] == entries[n])
  {
    ConsumedMembers(names, output, entries);
    SetOfMembers(Consumed(names, output, entries));
  }

  /** What the output held before the join has no influence on what it holds afterwards. */
  lemma {:induction false} MergedIgnoresOutput<N>(entries: map<N, Entry>, output: N, names: seq<N>, e: Entry)
    ensures Merged(entries[output := e], output, names) == Merged(entries, output, names)
  {
    ConsumedIgnoresOutput(entries, output, names, e);
    var done := Consumed(names, output, entries);
    ConsumedMembers(names, output, entries);
    FilesOfIgnores(entries, output, done, e);
  }

  /** Listing the output once more, after the other names, does not change what is merged. */
  lemma {:induction false} MergedAppendOutput<N>(entries: map<N, Entry>, output: N, names: seq<N>)
    ensures Merged(entries, output, names + [output]) == Merged(entries, output, names)
  {
    var ns := names + [output];
    assert ns[..|ns| - 1] == names;
    var done := Consumed(names, output, entries);
    assert Consumed(ns, output, entries) == done + [];
    assert done + [] == done;
  }

  lemma {:induction false} ConsumedIgnoresOutput<N>(entries: map<N, Entry>, output: N, names: seq<N>, e: Entry)
    ensures Consumed(names, output, entries[output := e]) == Consumed(names, output, entries)
    decreases |names|
  {
    if names != [] {
      ConsumedIgnoresOutput(entries, output, names[..|names| - 1], e);
      var n := names[|names| - 1];
      assert IsInput(n, output, entries[output := e]) == IsInput(n, output, entries);
    }
  }

  lemma {:induction false} FilesOfIgnores<N>(entries: map<N, Entry>, output: N, names: seq<N>, e: Entry)
    requires output !in names
    ensures FilesOf(names, entries[output := e]) == FilesOf(names, entries)
    decreases |names|
  {
    if names != [] {
      assert output !in names[..|names| - 1];
      FilesOfIgnores(entries, output, names[..|names| - 1], e);
    }
  }

  class StagingDir<N(==)> {
    var present: bool             // the folder exists
    var entries: map<N, Entry>    // its entries by name
    var order: seq<N>             // the order `os.listdir` returns the names in

    ghost predicate Valid()
      reads this
    {
      && Listing(order, entries)
      && (!present ==> entries == map[])
    }

    /** A folder that `tempfile.TemporaryDirectory` has just created. */
    constructor Fresh()
      ensures Valid() && present && entries == map[] && order == []
    {
      present, entries, order := true, map[], [];
    }

    /** `os.makedirs(folder, exist_ok=True)`: the folder exists afterwards, with the entries it had. */
    method MakeDirs()
      requires Valid()
      modifies this
      ensures Valid() && present && entries == old(entries) && order == old(order)
    {
      present := true;
    }

    /**
     * `ensure_clean_folder`: afterwards the folder exists; when it already existed, every
     * file, link and directory entry in it is gone and the folder itself is kept.
     */
    method EnsureCleanFolder()
      requires Valid()
      modifies this
      ensures Valid() && present
      ensures entries == CleanEntries(old(present), old(order), old(entries))
      ensures order == Remaining(old(order), RemovableNames(old(order), old(entries)))
    {
      if !present {
        present := true;
        RemainingNone(order);
        return;
      }
      var names := order;
      ghost var gone: set<N> := {};
      RemainingNone(order);
      var i := 0;
      while i < |names|
        invariant 0 <= i <= |names|
        invariant Valid() && present
        invariant gone == RemovableNames(names[..i], old(entries))
        invariant entries == old(entries) - gone
        invariant order == Remaining(names, gone)
      {
        var name := names[i];
        CleanStep(names, old(entries), i, gone);
        if Removable(entries[name]) {
          Remove(name);
          gone := gone + {name};
        }
        i := i + 1;
      }
      assert names[..i] == names;
    }

    /**
     * `join_csv_files_in_folder(folder, output)`: the output is opened with "w" (truncated or
     * created); every other entry that is a file with at least one line is appended to it, all
     * its lines for the first such file and all but its first line for the later ones, in
     * listing order, and is then removed. Empty files and entries that are not files stay.
     */
    method JoinCsvFiles(output: N) returns (err: Option<FsError>)
      requires Valid()
      modifies this
      ensures Valid() && present == old(present)
      ensures err == (if !old(present) then Some(NotFound) else WriteError(Lookup(old(entries), output)))
      ensures err.Some? ==> entries == old(entries) && order == old(order)
      ensures err.None? ==>
        var consumed := Consumed(old(order), output, old(entries));
        var listing := if output in old(entries) then old(order) else old(order) + [output];
        && entries == JoinedEntries(old(entries), output, old(order))
        && order == Remaining(listing, SetOf(consumed))
    {
      if !present {
        return Some(NotFound);
      }
      var names, out := order, Lookup(entries, output);
      err := WriteError(out);
      if err.Some? {
        return;
      }
      err := WriteFile(output, []);
      JoinAll(old(entries), output, out, names, order);
    }

    /** The join's loop, over the names listed before the output was opened. */
    method JoinAll(ghost start: map<N, Entry>, output: N, out: Option<Entry>, names: seq<N>, ghost listing: seq<N>)
      requires Valid() && present
      requires Listing(names, start) && out == Lookup(start, output) && WriteError(out).None?
      requires entries == start[output := Written(out, [])] && order == listing
      modifies this
      ensures Valid() && present
      ensures entries == JoinedEntries(start, output, names)
      ensures order == Remaining(listing, SetOf(Consumed(names, output, start)))
    {
      JoinedStart(start, output);
      RemainingNone(listing);
      assert names[..0] == [];
      var merged: seq<string> := [];
      var first := true;
      var i := 0;
      while i < |names|
        invariant 0 <= i <= |names|
        invariant Valid() && present
        invariant entries == JoinedEntries(start, output, names[..i])
        invariant merged == Merged(start, output, names[..i])
        invariant first == (Consumed(names[..i], output, start) == [])
        invariant order == Remaining(listing, SetOf(Consumed(names[..i], output, start)))
      {
        merged, first := JoinNext(start, output, out, names, i, listing, merged, first);
        i := i + 1;
      }
      assert names[..i] == names;
    }

    /** One pass of the join's loop, over the entry `names[i]`. */
    method JoinNext(ghost start: map<N, Entry>, output: N, out: Option<Entry>, names: seq<N>, i: nat,
                    ghost listing: seq<N>, merged: seq<string>, first: bool)
      returns (merged': seq<string>, first': bool)
      requires Valid() && present
      requires Listing(names, start) && i < |names|
      requires out == Lookup(start, output) && WriteError(out).None?
      requires entries == JoinedEntries(start, output, names[..i])
      requires merged == Merged(start, output, names[..i])
      requires first == (Consumed(names[..i], output, start) == [])
      requires order == Remaining(listing, SetOf(Consumed(names[..i], output, start)))
      modifies this
      ensures Valid() && present
      ensures entries == JoinedEntries(start, output, names[..i + 1])
      ensures merged' == Merged(start, output, names[..i + 1])
      ensures first' == (Consumed(names[..i + 1], output, start) == [])
      ensures order == Remaining(listing, SetOf(Consumed(names[..i + 1], output, start)))
    {
      var name := names[i];
      JoinedCurrent(names, output, start, i);
      if IsInput(name, output, entries) {
        var lines := LinesOf(entries[name]);
        JoinedTake(names, output, start, i);
        RemainingAdd(listing, SetOf(Consumed(names[..i], output, start)), name);
        merged' := if first then lines else merged + lines[1..];
        first' := false;
        Absorb(output, Written(out, merged'), name);
      } else {
        JoinedSkip(names, output, start, i);
        merged', first' := merged, first;
      }
    }

    /** One step of the join: the output is rewritten with `contents` and the input `name` removed. */
    method Absorb(output: N, contents: Entry, name: N)
      requires Valid() && output in entries && name in entries && name != output
      modifies this
      ensures Valid() && present == old(present)
      ensures entries == old(entries)[output := contents] - {name}
      ensures order == Remaining(old(order), {name})
    {
      ListingUpdate(order, entries, output, contents);
      entries := entries[output := contents];
      Remove(name);
    }

    /** `os.unlink` of a file or link, `shutil.rmtree` of a directory: the entry leaves the folder. */
    method Remove(name: N)
      requires Valid() && name in entries
      modifies this
      ensures Valid() && present == old(present)
      ensures entries == old(entries) - {name}
      ensures order == Remaining(old(order), {name})
    {
      ListingRemaining(order, entries, {name});
      entries := entries - {name};
      order := Remaining(order, {name});
    }

    /** Reading a whole file back (`open(path, "r").read()`), as the list of its lines. */
    method ReadFile(name: N) returns (r: Result<seq<string>, FsError>)
      requires Valid()
      ensures ReadError(Lookup(entries, name)).Some? <==> r.Err?
      ensures r.Err? ==> r.error == ReadError(Lookup(entries, name)).value
      ensures r.Ok? ==> name in entries && IsFile(entries[name]) && r.value == LinesOf(entries[name])
    {
      var e := Lookup(entries, name);
      var failure := ReadError(e);
      if failure.Some? {
        return Err(failure.value);
      }
      return Ok(LinesOf(e.value));
    }

    /** `open(path, "w")` followed by writing `lines`: the entry is created, or overwritten in place. */
    method WriteFile(name: N, lines: seq<string>) returns (err: Option<FsError>)
      requires Valid()
      modifies this
      ensures Valid() && present == old(present)
      ensures err == (if !old(present) then Some(NotFound) else WriteError(Lookup(old(entries), name)))
      ensures err.Some? ==> entries == old(entries) && order == old(order)
      ensures err.None? ==> entries == old(entries)[name := Written(Lookup(old(entries), name), lines)]
      ensures err.None? ==> order == if name in old(entries) then old(order) else old(order) + [name]
    {
      if !present {
        return Some(NotFound);
      }
      var e := Lookup(entries, name);
      err := WriteError(e);
      if err.Some? {
        return;
      }
      if name !in entries {
        ListingAppend(order, entries, name, Written(e, lines));
        order := order + [name];
      } else {
        ListingUpdate(order, entries, name, Written(e, lines));
      }
      entries := entries[name := Written(e, lines)];
    }

    /**
     * `sort_csv_by_time(path, column)`: the file's data rows are put in ascending order of the
     * column's timestamps and the file is rewritten; on any failure the folder is unchanged.
     */
    method SortCsvByTime(name: N, column: string) returns (err: Option<StagingError>)
      requires Valid()
      modifies this
      ensures Valid() && present == old(present) && order == old(order)
      ensures ReadError(Lookup(old(entries), name)).Some? ==>
                err == Some(Fs(ReadError(Lookup(old(entries), name)).value))
      ensures ReadError(Lookup(old(entries), name)).None? ==>
                var sorted := CsvSort.SortLines(LinesOf(old(entries)[name]), column);
                && (sorted.Err? ==> err == Some(Sort(sorted.error)))
                && (sorted.Ok? ==>
                      err.None? && entries == old(entries)[name := Written(Lookup(old(entries), name), sorted.value)])
      ensures err.Some? ==> entries == old(entries)
    {
      var content := ReadFile(name);
      if content.Err? {
        return Some(Fs(content.error));
      }
      var sorted := CsvSort.SortLines(content.value, column);
      if sorted.Err? {
        return Some(Sort(sorted.error));
      }
      var e := Lookup(entries, name);
      ListingUpdate(order, entries, name, Written(e, sorted.value));
      entries := entries[name := Written(e, sorted.value)];
      err := None;
    }
  }
}
