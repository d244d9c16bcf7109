/**
 * Re-export ("barrel") aggregation: every synthesised file contributes one
 * `export * from './<module>';` line to an `index.ts` in its own directory,
 * and the barrels are written after the synthesised files.
 */
module ReExport {
  import opened Paths

  /** A file to write: its destination path and its source text. */
  datatype FileSpec = FileSpec(fileName: string, content: string)

  /** The name of a directory's barrel file. */
  const IndexFileName := "index.ts"

  /** The extension stripped from a module's file name in its export line. */
  const SourceExtension := ".ts"

  /** The statement re-exporting the module stored at `fileName`. */
  function ExportLine(fileName: string): string {
    "export * from './" + Basename(fileName, SourceExtension) + "';"
  }

  /** What one file adds to its directory's barrel: a newline, then its export line. */
  function ExportEntry(f: FileSpec): string {
    "\n" + ExportLine(f.fileName)
  }

  /** No element of `s` occurs twice. */
  predicate Distinct<T(==)>(s: seq<T>) {
    forall i, j :: 0 <= i < j < |s| ==> s[i] != s[j]
  }

  // ---------------------------------------------------------------------
  // The barrels the aggregation must produce, defined per directory.
  // ---------------------------------------------------------------------

  /** The directories that receive at least one synthesised file. */
  function Dirs(results: seq<FileSpec>): set<string> {
    if results == [] then {}
    else Dirs(results[..|results| - 1]) + {Dirname(results[|results| - 1].fileName)}
  }

  /** The directories that receive at least one synthesised file, each
      listed once, in the order their first file is met. */
  function DirsInOrder(results: seq<FileSpec>): seq<string> {
    if results == [] then []
    else
      var prior := DirsInOrder(results[..|results| - 1]);
      var dir := Dirname(results[|results| - 1].fileName);
      if dir in prior then prior else prior + [dir]
  }

  /** The files of `results` that sit in `dir`, in their order. */
  function FilesIn(results: seq<FileSpec>, dir: string): seq<FileSpec> {
    if results == [] then []
    else (if Dirname(results[0].fileName) == dir then [results[0]] else []) + FilesIn(results[1..], dir)
  }

  /** One newline-led export line per file, in order. */
  function BarrelContent(fs: seq<FileSpec>): string {
    if fs == [] then "" else ExportEntry(fs[0]) + BarrelContent(fs[1..])
  }

  /** The barrel file `dir` should receive from `results`: `index.ts` in that
      directory, re-exporting each of the directory's files in encounter order. */
  function Barrel(results: seq<FileSpec>, dir: string): FileSpec {
    FileSpec(Join(dir, IndexFileName), BarrelContent(FilesIn(results, dir)))
  }

  /** A directory is among `Dirs(results)` exactly when some file of
      `results` sits in it. */
  lemma {:induction false} DirsMembers(results: seq<FileSpec>)
    ensures forall dir :: dir in Dirs(results) <==> exists f :: f in results && Dirname(f.fileName) == dir
  {
    if results != [] {
      var init := results[..|results| - 1];
      var last := results[|results| - 1];
      assert results == init + [last];
      DirsMembers(init);
    }
  }

  /** The ordered directories are the directories met, each listed once. */
  lemma {:induction false} DirsInOrderMembers(results: seq<FileSpec>)
    ensures Distinct(DirsInOrder(results))
    ensures forall dir :: dir in DirsInOrder(results) <==> dir in Dirs(results)
  {
    if results != [] {
      DirsInOrderMembers(results[..|results| - 1]);
    }
  }

  /** There are as many ordered directories as directories met. */
  lemma DirsInOrderCount(results: seq<FileSpec>)
    ensures |DirsInOrder(results)| == |Dirs(results)|
  {
    DirsInOrderMembers(results);
    DistinctCardinality(DirsInOrder(results));
    assert (set x | x in DirsInOrder(results)) == Dirs(results);
  }

  /** Meeting more files only appends directories: the order of the
      directories met among the first `i` files is kept. */
  lemma {:induction false} DirsInOrderPrefix(results: seq<FileSpec>, i: nat)
    requires i <= |results|
    ensures DirsInOrder(results[..i]) <= DirsInOrder(results)
  {
    if i == |results| {
      assert results[..i] == results;
    } else {
      var init := results[..|results| - 1];
      assert init[..i] == results[..i];
      DirsInOrderPrefix(init, i);
    }
  }

  /** The filter keeps exactly the files of `results` that sit in `dir`. */
  lemma {:induction false} FilesInMembers(results: seq<FileSpec>, dir: string)
    ensures forall f :: f in FilesIn(results, dir) <==> f in results && Dirname(f.fileName) == dir
  {
    if results != [] {
      FilesInMembers(results[1..], dir);
      assert forall f :: f in results <==> f == results[0] || f in results[1..];
    }
  }

  /** A directory's barrel lists at least one file exactly when the directory
      received one, and then its content starts with a newline. */
  lemma {:induction false} BarrelContentShape(results: seq<FileSpec>, dir: string)
    ensures FilesIn(results, dir) != [] <==> dir in Dirs(results)
    ensures dir in Dirs(results) ==> Barrel(results, dir).content[0] == '\n'
  {
    var fs := FilesIn(results, dir);
    FilesInMembers(results, dir);
    DirsMembers(results);
    if fs != [] {
      assert fs[0] in fs;
    }
    if dir in Dirs(results) {
      var f :| f in results && Dirname(f.fileName) == dir;
      assert f in fs;
    }
  }

  /** One more file adds its directory to the directories met. */
  lemma {:induction false} DirsSnoc(done: seq<FileSpec>, f: FileSpec)
    ensures Dirs(done + [f]) == Dirs(done) + {Dirname(f.fileName)}
  {
    assert (done + [f])[..|done|] == done;
  }

  /** Filtering a sequence with one more file appends that file when it is in `dir`. */
  lemma {:induction false} FilesInSnoc(results: seq<FileSpec>, f: FileSpec, dir: string)
    ensures FilesIn(results + [f], dir)
      == FilesIn(results, dir) + (if Dirname(f.fileName) == dir then [f] else [])
  {
    var tail := if Dirname(f.fileName) == dir then [f] else [];
    if results == [] {
      assert [f][1..] == [];
      assert FilesIn([f], dir) == tail + FilesIn([], dir);
      assert tail + [] == tail;
    } else {
      var head := if Dirname(results[0].fileName) == dir then [results[0]] else [];
      assert (results + [f])[1..] == results[1..] + [f];
      FilesInSnoc(results[1..], f, dir);
      calc {
        FilesIn(results + [f], dir);
        head + FilesIn(results[1..] + [f], dir);
        head + (FilesIn(results[1..], dir) + tail);
        (head + FilesIn(results[1..], dir)) + tail;
        FilesIn(results, dir) + tail;
      }
    }
  }

  /** The content of a concatenation is the concatenation of the contents. */
  lemma {:induction false} BarrelContentAppend(a: seq<FileSpec>, b: seq<FileSpec>)
    ensures BarrelContent(a + b) == BarrelContent(a) + BarrelContent(b)
  {
    if a == [] {
      assert a + b == b;
    } else {
      assert (a + b)[1..] == a[1..] + b;
      BarrelContentAppend(a[1..], b);
    }
  }

  /** One more file leaves the barrels of other directories as they were. */
  lemma {:induction false} BarrelSnocOther(done: seq<FileSpec>, f: FileSpec, dir: string)
    requires dir != Dirname(f.fileName)
    ensures Barrel(done + [f], dir) == Barrel(done, dir)
  {
    FilesInSnoc(done, f, dir);
    var prior := FilesIn(done, dir);
    assert prior + [] == prior;
  }

  /** One more file extends its own directory's barrel: the path stays
      `index.ts` there, and its export line is appended on a new line to the
      content collected so far (empty for a directory not seen before). */
  lemma {:induction false} BarrelSnocSame(done: seq<FileSpec>, f: FileSpec)
    ensures Barrel(done + [f], Dirname(f.fileName)) == FileSpec(
      Join(Dirname(f.fileName), IndexFileName),
      (if Dirname(f.fileName) in Dirs(done) then Barrel(done, Dirname(f.fileName)).content else "")
        + ExportEntry(f))
  {
    var dir := Dirname(f.fileName);
    FilesInSnoc(done, f, dir);
    var prior := FilesIn(done, dir);
    BarrelContentShape(done, dir);
    BarrelContentAppend(prior, [f]);
    assert [f][1..] == [];
    assert BarrelContent([f]) == ExportEntry(f);
  }

  /** A module stored as `<stem>.ts` in a directory is re-exported under its stem. */
  lemma ExportLineNamesModule(dir: string, stem: string)
    requires stem != "" && NoSlash(stem)
    requires dir != "" && (dir == "/" || dir[|dir| - 1] != '/')
    ensures ExportLine(Join(dir, stem + SourceExtension)) == "export * from './" + stem + "';"
  {
    BasenameOfJoin(dir, stem, SourceExtension);
  }

  // ---------------------------------------------------------------------
  // The collection the loop builds (`indexCollections`).
  // ---------------------------------------------------------------------

  /** A record keyed by directory: its entries, and its keys in insertion
      order (the order `Object.values` lists a record's entries in). */
  datatype Collection = Collection(entries: map<string, FileSpec>, keys: seq<string>)

  /** The collection after visiting `fileName`: its directory's entry keeps
      a path set earlier (`index.ts` in the directory for a new entry), and
      the export line is joined to the earlier content (empty for a new
      entry) with a newline; a new directory becomes the last key. */
  function CollectFile(c: Collection, fileName: string): Collection {
    var dirName := Dirname(fileName);
    var previousName := if dirName in c.entries then c.entries[dirName].fileName else "";
    var previousContent := if dirName in c.entries then c.entries[dirName].content else "";
    Collection(
      c.entries[dirName := FileSpec(
        if previousName != "" then previousName else Join(dirName, IndexFileName),
        previousContent + ("\n" + ExportLine(fileName)))],
      if dirName in c.entries then c.keys else c.keys + [dirName])
  }

  /** The collection after visiting every file of `results` in order. */
  function CollectAll(results: seq<FileSpec>): Collection {
    if results == [] then Collection(map[], [])
    else CollectFile(CollectAll(results[..|results| - 1]), results[|results| - 1].fileName)
  }

  /** The collection has exactly one entry per directory met, and its keys
      are those directories in the order they were first met. */
  lemma {:induction false} CollectAllKeys(results: seq<FileSpec>)
    ensures CollectAll(results).entries.Keys == Dirs(results)
    ensures CollectAll(results).keys == DirsInOrder(results)
  {
    if results != [] {
      var init := results[..|results| - 1];
      CollectAllKeys(init);
      DirsInOrderMembers(init);
    }
  }

  /** Each entry of the collection is its directory's barrel. */
  lemma {:induction false} CollectAllEntry(results: seq<FileSpec>, dir: string)
    requires dir in Dirs(results)
    ensures dir in CollectAll(results).entries
    ensures CollectAll(results).entries[dir] == Barrel(results, dir)
  {
    var init := results[..|results| - 1];
    var last := results[|results| - 1];
    assert results == init + [last];
    CollectAllKeys(init);
    if dir == Dirname(last.fileName) {
      BarrelSnocSame(init, last);
      if dir in Dirs(init) {
        CollectAllEntry(init, dir);
      }
      assert Join(dir, IndexFileName) != "";
    } else {
      BarrelSnocOther(init, last, dir);
      CollectAllEntry(init, dir);
    }
  }

  /** Visiting every file yields one entry per directory met, holding that
      directory's barrel, keyed in the order the directories were first met. */
  lemma CollectAllBarrels(results: seq<FileSpec>)
    ensures CollectAll(results).entries.Keys == Dirs(results)
    ensures forall dir :: dir in CollectAll(results).entries ==>
      CollectAll(results).entries[dir] == Barrel(results, dir)
    ensures CollectAll(results).keys == DirsInOrder(results)
  {
    CollectAllKeys(results);
    forall dir | dir in CollectAll(results).entries
      ensures CollectAll(results).entries[dir] == Barrel(results, dir)
    {
      CollectAllEntry(results, dir);
    }
  }

  /** The re-export loop over `results` (`indexCollections`): for each file,
      look up or create the entry of its directory, keep any path set earlier,
      and append the file's export line on a new line. Afterwards there is one
      entry per directory, holding that directory's barrel, and `order` lists
      each directory once, in the order its entry was created. */
  method CollectIndexes(results: seq<FileSpec>) returns (index: map<string, FileSpec>, order: seq<string>)
    ensures index.Keys == Dirs(results)
    ensures forall dir :: dir in index ==> index[dir] == Barrel(results, dir)
    ensures order == DirsInOrder(results)
  {
    index := map[];
    order := [];
    var i := 0;
    while i < |results|
      invariant 0 <= i <= |results|
      invariant Collection(index, order) == CollectAll(results[..i])
    {
      assert results[..i + 1][..i] == results[..i];
      var fileName := results[i].fileName;
      var dirName := Dirname(fileName);
      var previousName := if dirName in index then index[dirName].fileName else "";
      var previousContent := if dirName in index then index[dirName].content else "";
      if dirName !in index {
        order := order + [dirName];
      }
      index := index[dirName := FileSpec(
        if previousName != "" then previousName else Join(dirName, IndexFileName),
        previousContent + ("\n" + ExportLine(fileName)))];
      i := i + 1;
    }
    assert results[..i] == results;
    CollectAllBarrels(results);
  }

  // ---------------------------------------------------------------------
  // The write list.
  // ---------------------------------------------------------------------

  /** A sequence without repeats has as many distinct elements as entries. */
  lemma {:induction false} DistinctCardinality<T>(s: seq<T>)
    requires Distinct(s)
    ensures |set x | x in s| == |s|
  {
    if s != [] {
      var init := s[..|s| - 1];
      assert s == init + [s[|s| - 1]];
      assert Distinct(init);
      DistinctCardinality(init);
      assert (set x | x in s) == (set x | x in init) + {s[|s| - 1]};
    }
  }

  /** `Object.values`: the entries of a record in key order. */
  function Values(entries: map<string, FileSpec>, keys: seq<string>): (values: seq<FileSpec>)
    requires forall dir :: dir in keys ==> dir in entries
    ensures |values| == |keys|
    ensures forall k :: 0 <= k < |keys| ==> values[k] == entries[keys[k]]
  {
    seq(|keys|, k requires 0 <= k < |keys| => entries[keys[k]])
  }

  /** What the files to write must be: the synthesised files unchanged and in
      their order, then, when re-export is on, the barrel of each directory
      that received a file, in the order the directories were first met;
      with re-export off, the synthesised files alone. */
  predicate IsWriteList(results: seq<FileSpec>, reExport: bool, writes: seq<FileSpec>) {
    && |writes| == |results| + (if reExport then |DirsInOrder(results)| else 0)
    && writes[..|results|] == results
    && (reExport ==> forall k :: 0 <= k < |DirsInOrder(results)| ==>
          writes[|results| + k] == Barrel(results, DirsInOrder(results)[k]))
  }

  /** The write list (`results.concat(Object.values(indexCollections))`),
      with the collection left empty when re-export is off. */
  method WriteList(results: seq<FileSpec>, reExport: bool) returns (writes: seq<FileSpec>)
    ensures IsWriteList(results, reExport, writes)
  {
    var index: map<string, FileSpec> := map[];
    var order: seq<string> := [];
    if reExport {
      index, order := CollectIndexes(results);
      DirsInOrderMembers(results);
    }
    var barrels := Values(index, order);
    writes := results + barrels;
    assert writes[..|results|] == results;
    forall k | 0 <= k < |barrels| ensures writes[|results| + k] == index[order[k]] {
      assert writes[|results| + k] == barrels[k];
    }
  }

  /** With re-export on, the writes after the synthesised files are barrels
      of directories met, and nothing else. */
  lemma WriteListOnlyBarrels(results: seq<FileSpec>, writes: seq<FileSpec>)
    requires IsWriteList(results, true, writes)
    ensures forall b :: b in writes[|results|..] ==> exists dir :: dir in Dirs(results) && b == Barrel(results, dir)
  {
    DirsInOrderMembers(results);
    forall b | b in writes[|results|..] ensures exists dir :: dir in Dirs(results) && b == Barrel(results, dir) {
      var k :| 0 <= k < |writes| - |results| && writes[|results|..][k] == b;
      var dir := DirsInOrder(results)[k];
      assert b == writes[|results| + k];
      assert dir in Dirs(results) && b == Barrel(results, dir);
    }
  }

  /** With re-export on, every directory met gets exactly one barrel written:
      one write per directory, and each directory's barrel among them. */
  lemma WriteListAllBarrels(results: seq<FileSpec>, writes: seq<FileSpec>)
    requires IsWriteList(results, true, writes)
    ensures |writes| == |results| + |Dirs(results)|
    ensures forall dir :: dir in Dirs(results) ==> Barrel(results, dir) in writes[|results|..]
  {
    DirsInOrderCount(results);
    DirsInOrderMembers(results);
    forall dir | dir in Dirs(results) ensures Barrel(results, dir) in writes[|results|..] {
      var k :| 0 <= k < |DirsInOrder(results)| && DirsInOrder(results)[k] == dir;
      assert writes[|results|..][k] == Barrel(results, dir);
    }
  }
}
