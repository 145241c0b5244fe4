/** Resuming a walk from its checkpoint (app/services/smb_job_processor.py:411, 421-424). */
module FileResume {
  import opened Wrappers
  import opened Text
  import opened FileScan

  /** The files that a walk handles after skipping up to a checkpoint; skipping stops at the first file past it. */
  function AfterCursor(entries: seq<FileEntry>, cursor: string): seq<FileEntry> {
    if entries == [] then []
    else if CodePointLe(entries[0].relPath, cursor) then AfterCursor(entries[1..], cursor)
    else entries
  }

  /** `if skipping_to_cursor`: an absent or empty cursor skips nothing. */
  function ToHandle(entries: seq<FileEntry>, cursor: Option<string>): seq<FileEntry> {
    if cursor.Some? && cursor.value != "" then AfterCursor(entries, cursor.value) else entries
  }

  /** The first m files are in order with the checkpoint at their end, and the next one is past it. */
  ghost predicate CutsCleanly(entries: seq<FileEntry>, m: nat)
    requires 0 < m <= |entries|
  {
    var cursor := entries[m - 1].relPath;
    && (forall i :: 0 <= i < m ==> CodePointLe(entries[i].relPath, cursor))
    && (m < |entries| ==> !CodePointLe(entries[m].relPath, cursor))
  }

  lemma {:induction false} AfterCursorIsSuffix(entries: seq<FileEntry>, cursor: string) returns (k: nat)
    ensures k <= |entries| && AfterCursor(entries, cursor) == entries[k..]
    ensures forall i :: 0 <= i < k ==> CodePointLe(entries[i].relPath, cursor)
    ensures k < |entries| ==> !CodePointLe(entries[k].relPath, cursor)
  {
    hide CodePointLe;
    if entries == [] || !CodePointLe(entries[0].relPath, cursor) {
      k := 0;
    } else {
      var rest := AfterCursorIsSuffix(entries[1..], cursor);
      k := rest + 1;
      assert entries[1..][rest..] == entries[k..];
      forall i | 0 <= i < k ensures CodePointLe(entries[i].relPath, cursor) {
        assert i == 0 || entries[i] == entries[1..][i - 1];
      }
    }
  }

  lemma SuffixLength<T>(s: seq<T>, a: nat, b: nat)
    requires a <= |s| && b <= |s| && s[a..] == s[b..]
    ensures a == b
  {
    assert |s[a..]| == |s| - a && |s[b..]| == |s| - b;
  }

  /**
   An attempt resumed at the checkpoint of the first m files handles exactly the files after
   them if and only if the walk cuts cleanly there.
   */
  lemma ResumeIsExactIff(entries: seq<FileEntry>, m: nat)
    requires 0 < m <= |entries|
    ensures AfterCursor(entries, entries[m - 1].relPath) == entries[m..] <==> CutsCleanly(entries, m)
  {
    hide CodePointLe;
    var k := AfterCursorIsSuffix(entries, entries[m - 1].relPath);
    if entries[k..] == entries[m..] {
      SuffixLength(entries, k, m);
    }
    if CutsCleanly(entries, m) {
      assert k == m;
    }
  }

  /** A walk that yields its paths in strictly increasing code-point order. */
  ghost predicate Increasing(entries: seq<FileEntry>) {
    forall i, j :: 0 <= i < j < |entries| ==> CodePointLt(entries[i].relPath, entries[j].relPath)
  }

  lemma IncreasingCutsCleanly(entries: seq<FileEntry>, m: nat)
    requires Increasing(entries) && 0 < m <= |entries|
    ensures CutsCleanly(entries, m)
  {
    forall i | 0 <= i < m ensures CodePointLe(entries[i].relPath, entries[m - 1].relPath) {
      CodePointTotal(entries[i].relPath, entries[m - 1].relPath);
      assert i == m - 1 || CodePointLt(entries[i].relPath, entries[m - 1].relPath);
    }
  }

  /** No checkpoint ever loses or repeats a file exactly on the walks in strictly increasing order. */
  lemma EveryCutCleanIff(entries: seq<FileEntry>)
    ensures Increasing(entries) <==> forall m: nat :: 0 < m <= |entries| ==> CutsCleanly(entries, m)
  {
    if Increasing(entries) {
      forall m: nat | 0 < m <= |entries| ensures CutsCleanly(entries, m) {
        IncreasingCutsCleanly(entries, m);
      }
    } else {
      hide CodePointLe;
      var i, j :| 0 <= i < j < |entries| && !CodePointLt(entries[i].relPath, entries[j].relPath);
      if CutsCleanly(entries, j) {
        CodePointTrans(entries[j].relPath, entries[i].relPath, entries[j - 1].relPath);
      }
      assert !CutsCleanly(entries, j);
    }
  }

  /** The order in which the local client walks: by lower-cased path; `lower` is str.lower. */
  ghost predicate LowerCaseOrder(lower: string -> string, entries: seq<FileEntry>) {
    forall i, j :: 0 <= i < j < |entries| ==> CodePointLe(lower(entries[i].relPath), lower(entries[j].relPath))
  }

  predicate HasCapitals(lower: string -> string, e: FileEntry) {
    lower(e.relPath) != e.relPath
  }

  predicate NextInOrder(entries: seq<FileEntry>, i: nat) {
    i + 1 < |entries| && CodePointLe(entries[i].relPath, entries[i + 1].relPath)
  }

  ghost predicate CapitalsInPlace(lower: string -> string, entries: seq<FileEntry>) {
    forall i: nat :: i + 1 < |entries| && (HasCapitals(lower, entries[i]) || HasCapitals(lower, entries[i + 1])) ==>
      NextInOrder(entries, i)
  }

  lemma {:induction false} NeighboursInOrder(entries: seq<FileEntry>, i: nat, j: nat)
    requires i <= j < |entries| && forall k: nat :: i <= k < j ==> NextInOrder(entries, k)
    ensures CodePointLe(entries[i].relPath, entries[j].relPath)
    decreases j
  {
    hide CodePointLe;
    if i == j {
      CodePointRefl(entries[i].relPath);
    } else {
      NeighboursInOrder(entries, i, j - 1);
      assert NextInOrder(entries, j - 1);
      CodePointTrans(entries[i].relPath, entries[j - 1].relPath, entries[j].relPath);
    }
  }

  /**
   A walk in lower-cased order is increasing exactly when every path with capitals stands in
   code-point order with the paths right before and right after it.
   */
  lemma LowerCaseOrderIncreasesIff(lower: string -> string, entries: seq<FileEntry>)
    requires LowerCaseOrder(lower, entries) && DistinctPaths(entries)
    ensures Increasing(entries) <==> CapitalsInPlace(lower, entries)
  {
    hide CodePointLe;
    if Increasing(entries) {
      forall i: nat | i + 1 < |entries| ensures NextInOrder(entries, i) {
        CodePointTotal(entries[i].relPath, entries[i + 1].relPath);
        assert CodePointLt(entries[i].relPath, entries[i + 1].relPath);
      }
    }
    if CapitalsInPlace(lower, entries) {
      forall i, j | 0 <= i < j < |entries| ensures CodePointLt(entries[i].relPath, entries[j].relPath) {
        forall k: nat | i <= k < j ensures NextInOrder(entries, k) {
          assert CodePointLe(lower(entries[k].relPath), lower(entries[k + 1].relPath));
        }
        NeighboursInOrder(entries, i, j);
        CodePointTotal(entries[i].relPath, entries[j].relPath);
      }
    }
  }

  /** a00.txt to a49.txt, which fill one batch of items, and B.txt. */
  function FullBatchWalk(): (entries: seq<FileEntry>)
    ensures |entries| == 51
  {
    seq(50, i requires 0 <= i < 50 => FileEntry(Numbered(i), Numbered(i), 1, None)) + [FileEntry("B.txt", "B.txt", 1, None)]
  }

  function Numbered(i: nat): string
    requires i < 50
  {
    ['a', ('0' as int + i / 10) as char, ('0' as int + i % 10) as char] + ".txt"
  }

  lemma NumberedOrder(i: nat, j: nat)
    requires i <= j < 50
    ensures CodePointLe(Numbered(i), Numbered(j)) && CodePointLe(Numbered(i), "b.txt") && CodePointLe("B.txt", Numbered(j))
  {
    var a, b := Numbered(i), Numbered(j);
    assert a[1..][1..][1..] == ".txt" == b[1..][1..][1..];
    CodePointRefl(".txt");
    assert a[0] < "b.txt"[0] && "B.txt"[0] < b[0];
  }

  /** A job killed after that batch was committed loses B.txt when it is taken up again. */
  lemma LowerCaseOrderLosesAFile(lower: string -> string)
    requires lower("B.txt") == "b.txt" && forall i: nat :: i < 50 ==> lower(Numbered(i)) == Numbered(i)
    ensures LowerCaseOrder(lower, FullBatchWalk()) && FullBatchWalk()[50].relPath == "B.txt"
    ensures ToHandle(FullBatchWalk(), Some(FullBatchWalk()[49].relPath)) == []
  {
    hide CodePointLe, Numbered;
    var walk := FullBatchWalk();
    forall i, j | 0 <= i < j < |walk| ensures CodePointLe(lower(walk[i].relPath), lower(walk[j].relPath)) {
      NumberedOrder(i, if j < 50 then j else 49);
    }
    LastIsNamed();
    var k := AfterCursorIsSuffix(walk, walk[49].relPath);
    if k < |walk| {
      NumberedOrder(if k < 50 then k else 49, 49);
    }
  }

  lemma LastIsNamed()
    ensures FullBatchWalk()[49].relPath != ""
  {
  }

  lemma ResumedTodo(entries: seq<FileEntry>, cursor: Option<string>, m: nat)
    requires Increasing(entries) && forall i :: 0 <= i < |entries| ==> entries[i].relPath != ""
    requires 0 < m <= |ToHandle(entries, cursor)|
    ensures ToHandle(entries, Some(ToHandle(entries, cursor)[m - 1].relPath)) == ToHandle(entries, cursor)[m..]
  {
    hide CodePointLe, Increasing, AfterCursor;
    var todo := ToHandle(entries, cursor);
    var k := 0;
    if todo != entries {
      k := AfterCursorIsSuffix(entries, cursor.value);
    }
    assert todo == entries[k..] && todo[m - 1] == entries[k + m - 1] && todo[m..] == entries[k + m..];
    IncreasingCutsCleanly(entries, k + m);
    ResumeIsExactIff(entries, k + m);
  }
}
