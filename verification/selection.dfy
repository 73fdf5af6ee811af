/**
 * The first half of collect_files_thread: which of the paths found under the
 * source folder are collected. The recursive listing itself is an input.
 */
module Selection {
  import opened Filters
  import opened Reading
  import opened Sequences

  /** One path that the recursive listing of the source folder yields: its
      final name, its path relative to the source folder as it is printed,
      whether it is a regular file, and what reading it under each encoding
      gives. */
  datatype Entry = Entry(name: string, relativePath: string, isFile: bool, attempt: string -> Attempt)

  /** The filter state the run consults: the all-files flag and the two extension sets. */
  datatype Criteria = Criteria(useAllFiles: bool, includeExts: set<string>, excludeExts: set<string>)

  /** An entry is collected when its name matches the glob "*.*" (it holds a
      dot), it is a regular file, and should_process_file accepts it. */
  predicate Selected(e: Entry, c: Criteria) {
    '.' in e.name && e.isFile && ShouldProcessFile(c.useAllFiles, c.includeExts, c.excludeExts, e.name)
  }

  /** files_to_process: the selected entries, in the order of the listing. */
  function Select(entries: seq<Entry>, c: Criteria): (r: seq<Entry>)
    ensures |r| <= |entries|
  {
    if entries == [] then []
    else if Selected(entries[0], c) then [entries[0]] + Select(entries[1..], c)
    else Select(entries[1..], c)
  }

  /** An entry is in files_to_process exactly when it is in the listing and
      is selected. */
  lemma {:induction false} SelectMembers(entries: seq<Entry>, c: Criteria)
    ensures forall e :: e in Select(entries, c) <==> e in entries && Selected(e, c)
  {
    if entries != [] {
      SelectMembers(entries[1..], c);
      assert entries == [entries[0]] + entries[1..];
    }
  }

  /** Selecting from two listings one after the other keeps both results in order. */
  lemma {:induction false} SelectAppend(a: seq<Entry>, b: seq<Entry>, c: Criteria)
    ensures Select(a + b, c) == Select(a, c) + Select(b, c)
  {
    AppendParts(a, b);
    if a != [] {
      SelectAppend(a[1..], b, c);
      var ab := a + b;
      assert ab[0] == a[0] && ab[1..] == a[1..] + b;
      if Selected(a[0], c) {
        assert Select(ab, c) == [a[0]] + Select(a[1..] + b, c);
        AppendAssoc([a[0]], Select(a[1..], c), Select(b, c));
      } else {
        assert Select(ab, c) == Select(a[1..] + b, c);
      }
    }
  }

  /** Nothing is dropped and the order is kept: a selected entry at position
      j of the listing is found in the result right after the entries
      selected from before it. */
  lemma {:induction false} SelectKeepsOrder(entries: seq<Entry>, c: Criteria, j: nat)
    requires j < |entries| && Selected(entries[j], c)
    ensures |Select(entries[..j], c)| < |Select(entries, c)|
    ensures Select(entries, c)[|Select(entries[..j], c)|] == entries[j]
  {
    assert entries == entries[..j] + entries[j..];
    SelectAppend(entries[..j], entries[j..], c);
    assert entries[j..][0] == entries[j];
  }

  /** The selection is empty exactly when no entry is selected. */
  lemma {:induction false} SelectEmpty(entries: seq<Entry>, c: Criteria)
    ensures Select(entries, c) == [] <==> forall i :: 0 <= i < |entries| ==> !Selected(entries[i], c)
  {
    if entries != [] {
      SelectEmpty(entries[1..], c);
      assert forall i :: 0 <= i < |entries| - 1 ==> entries[1..][i] == entries[i + 1];
    }
  }

  /** In all-files mode the extension sets play no part: every regular file
      whose name holds a dot is collected, excluded extensions included. */
  lemma {:induction false} SelectAllFiles(entries: seq<Entry>, includeExts: set<string>, excludeExts: set<string>)
    ensures Select(entries, Criteria(true, includeExts, excludeExts)) == Select(entries, Criteria(true, {}, {}))
    ensures forall i :: 0 <= i < |entries| && '.' in entries[i].name && entries[i].isFile ==>
      entries[i] in Select(entries, Criteria(true, includeExts, excludeExts))
  {
    if entries != [] {
      SelectAllFiles(entries[1..], includeExts, excludeExts);
      forall i | 0 <= i < |entries| && '.' in entries[i].name && entries[i].isFile
        ensures entries[i] in Select(entries, Criteria(true, includeExts, excludeExts))
      {
        SelectKeepsOrder(entries, Criteria(true, includeExts, excludeExts), i);
      }
    }
  }
}
