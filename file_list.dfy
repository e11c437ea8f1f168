/** The file list of static/main.js: the container `#fileList`, the
    placeholder `#emptyPlaceholder` and the count label `#fileCount`, with
    `addFilesToUI`, `updateFileCount`, `handleFiles` (as first defined and as
    re-wrapped at lines 200-205), `initPlaceholder`, `loadMockFiles`, the
    start-up sequence and the two event listeners that feed `handleFiles`.

    The pure functions on `ListState` say what each operation does; the class
    `FileList` holds the same state in fields and its methods are proved to
    follow those functions. */
module FileListUI {
  import opened Wrappers
  import opened TextUtil
  import opened FileItem
  import opened SeqFacts

  /** The observable state: the `.file-item` rows in document order, whether
      the placeholder element is in the container, the label's text, and how
      many other element children the page's markup put in the container
      (no operation adds or removes those). */
  datatype ListState = ListState(rows: seq<Row>, placeholder: bool, countText: string, otherChildren: nat)

  /** `fileListContainer.children.length`: rows, the placeholder and any
      other element. */
  function ChildCount(s: ListState): (r: nat)
    ensures r == 0 <==> s.rows == [] && !s.placeholder && s.otherChildren == 0
  {
    |s.rows| + (if s.placeholder then 1 else 0) + s.otherChildren
  }

  /** The placeholder is only ever shown in an otherwise empty list. */
  ghost predicate Consistent(s: ListState)
  {
    s.placeholder ==> s.rows == []
  }

  /** The label shows the number of file rows. The placeholder and the other
      elements of the markup are not counted; a row is counted once, which
      holds as long as its name and date are text (written through
      `innerHTML`, markup in them could add `.file-item` elements). */
  ghost predicate Counted(s: ListState)
  {
    s.countText == CountLabel(|s.rows|)
  }

  /** `count + (count === 1 ? ' item' : ' items')`: the label starts with the
      decimal count, and the singular is used for exactly one item. */
  function CountLabel(n: nat): (r: string)
    ensures |NatToString(n)| < |r|
    ensures r[..|NatToString(n)|] == NatToString(n)
    ensures r[|NatToString(n)|..] == " item" <==> n == 1
    ensures r[|NatToString(n)|..] == " items" <==> n != 1
  {
    NatToString(n) + if n == 1 then " item" else " items"
  }

  /** Two counts never share a label. */
  lemma CountLabelInjective(a: nat, b: nat)
    requires CountLabel(a) == CountLabel(b)
    ensures a == b
  {
    var da, db := NatToString(a), NatToString(b);
    if |da| == |db| {
      assert da == CountLabel(a)[..|da|];
      NatToStringInjective(a, b);
    }
  }

  /** Zero and every count but one take the plural; one takes the singular. */
  lemma CountLabelOfZero()
    ensures CountLabel(0) == "0 items"
  {
    assert NatToString(0) == [DigitChar(0)] == "0";
  }

  lemma CountLabelOfOne()
    ensures CountLabel(1) == "1 item"
  {
    assert NatToString(1) == [DigitChar(1)] == "1";
  }

  lemma CountLabelOfTwo()
    ensures CountLabel(2) == "2 items"
  {
    assert NatToString(2) == [DigitChar(2)] == "2";
  }

  /** `updateFileCount()`. */
  function UpdateCountSpec(s: ListState): (r: ListState)
    ensures Counted(r)
    ensures r.rows == s.rows && r.placeholder == s.placeholder && r.otherChildren == s.otherChildren
  {
    s.(countText := CountLabel(|s.rows|))
  }

  /** `!files || files.length === 0`: the batch is absent or has no file. */
  predicate IsEmptyBatch(files: Option<seq<FileData>>): (r: bool)
    ensures r <==> files == None || files == Some([])
  {
    files.None? || |files.value| == 0
  }

  /** `after` is `before` with `block` inserted as one contiguous run at
      position `at`: the block keeps its order and the old rows theirs. */
  ghost predicate InsertedAsBlock(before: seq<Row>, after: seq<Row>, block: seq<Row>, at: nat)
  {
    at <= |before| && |after| == |before| + |block|
    && after[at..at + |block|] == block
    && after[..at] + after[at + |block|..] == before
  }

  /** `addFilesToUI(files, prepend)`: an absent or empty batch changes
      nothing; otherwise the placeholder goes, the batch's rows are inserted
      as one block in batch order at the front or the back, and the label is
      recounted. */
  function AddFilesSpec(s: ListState, files: Option<seq<FileData>>, prepend: bool): (r: ListState)
    ensures IsEmptyBatch(files) ==> r == s
    ensures !IsEmptyBatch(files) ==> !r.placeholder && Counted(r)
    ensures !IsEmptyBatch(files) ==>
      InsertedAsBlock(s.rows, r.rows, RowsOf(files.value), if prepend then 0 else |s.rows|)
    ensures r.otherChildren == s.otherChildren
  {
    if IsEmptyBatch(files) then s
    else
      var fragment := RowsOf(files.value);
      var rows := if prepend then fragment + s.rows else s.rows + fragment;
      assert prepend ==> rows[|fragment|..] == s.rows;
      assert !prepend ==> rows[..|s.rows|] == s.rows;
      UpdateCountSpec(ListState(rows, false, s.countText, s.otherChildren))
  }

  /** The re-wrapped `handleFiles`: remove the placeholder, then hand the
      batch to the original, which prepends it when it is non-empty. The
      placeholder goes even when the batch is empty. */
  function HandleSpec(s: ListState, files: Option<seq<FileData>>): (r: ListState)
    ensures !r.placeholder
    ensures IsEmptyBatch(files) ==> r == s.(placeholder := false)
    ensures !IsEmptyBatch(files) ==> r == AddFilesSpec(s, files, true)
  {
    AddFilesSpec(s.(placeholder := false), files, true)
  }

  /** `initPlaceholder()`: the placeholder is added only to a container with
      no children at all. */
  function InitPlaceholderSpec(s: ListState): (r: ListState)
    ensures r.rows == s.rows && r.countText == s.countText && r.otherChildren == s.otherChildren
    ensures r.placeholder <==> s.placeholder || ChildCount(s) == 0
  {
    if ChildCount(s) == 0 then s.(placeholder := true) else s
  }

  /** `files.forEach(f => addFilesToUI([f], false))`, one file at a time:
      the old rows stay in front, one row per file follows, and after any
      file the placeholder is gone and the label counts the rows. */
  function AppendEach(s: ListState, files: seq<FileData>): (r: ListState)
    ensures |r.rows| == |s.rows| + |files| && r.rows[..|s.rows|] == s.rows
    ensures r.otherChildren == s.otherChildren
    ensures files == [] ==> r == s
    ensures files != [] ==> !r.placeholder && Counted(r)
    decreases |files|
  {
    if files == [] then s
    else
      var t := AppendEach(s, files[..|files| - 1]);
      var r := AddFilesSpec(t, Some([files[|files| - 1]]), false);
      assert r.rows[..|t.rows|] == t.rows;
      assert r.rows[..|s.rows|] == r.rows[..|t.rows|][..|s.rows|];
      r
  }

  /** Appending a non-empty batch: its rows go after the old ones, the
      placeholder goes, and the label counts old and new rows together. */
  lemma AppendNonEmptyBatch(s: ListState, files: seq<FileData>)
    requires files != []
    ensures AddFilesSpec(s, Some(files), false)
      == ListState(s.rows + RowsOf(files), false, CountLabel(|s.rows| + |files|), s.otherChildren)
  {
    var r := AddFilesSpec(s, Some(files), false);
    assert r.rows[..|s.rows|] == s.rows;
  }

  /** Appending two batches in turn is appending their concatenation. */
  lemma AppendTwice(s: ListState, a: seq<FileData>, b: seq<FileData>)
    ensures AddFilesSpec(AddFilesSpec(s, Some(a), false), Some(b), false) == AddFilesSpec(s, Some(a + b), false)
  {
    if a == [] {
      assert a + b == b;
    } else if b == [] {
      assert a + b == a;
    } else {
      var t := ListState(s.rows + RowsOf(a), false, CountLabel(|s.rows| + |a|), s.otherChildren);
      AppendNonEmptyBatch(s, a);
      AppendNonEmptyBatch(t, b);
      AppendNonEmptyBatch(s, a + b);
      RowsOfAppend(a, b);
      ConcatAssociative(s.rows, RowsOf(a), RowsOf(b));
    }
  }

  /** Appending the files one at a time is appending them as one batch. */
  lemma {:induction false} AppendEachIsOneBatch(s: ListState, files: seq<FileData>)
    ensures AppendEach(s, files) == AddFilesSpec(s, Some(files), false)
    decreases |files|
  {
    if files != [] {
      var init, last := files[..|files| - 1], files[|files| - 1];
      assert files == init + [last];
      AppendEachIsOneBatch(s, init);
      AppendTwice(s, init, [last]);
    }
  }

  /** Appending a batch one file at a time to a container with no children
      and recounting leaves exactly the batch's rows, counted. */
  lemma AppendEachIntoEmpty(s: ListState, files: seq<FileData>)
    requires ChildCount(s) == 0
    ensures UpdateCountSpec(AppendEach(s, files)) == ListState(RowsOf(files), false, CountLabel(|files|), 0)
  {
    AppendEachIsOneBatch(s, files);
  }

  /** There are four mocks. */
  lemma MockCountLabel()
    ensures CountLabel(|MockFiles()|) == "4 items"
  {
  }

  /** `loadMockFiles()`: a container with no children gets the four mocks,
      in their fixed order, labelled "4 items"; any other container is only
      recounted. */
  function LoadMockFilesSpec(s: ListState): (r: ListState)
    ensures ChildCount(s) == 0 ==> r == ListState(RowsOf(MockFiles()), false, "4 items", 0)
    ensures ChildCount(s) > 0 ==> r == s.(countText := CountLabel(|s.rows|))
  {
    if ChildCount(s) == 0 then
      AppendEachIntoEmpty(s, MockFiles());
      MockCountLabel();
      UpdateCountSpec(AppendEach(s, MockFiles()))
    else
      UpdateCountSpec(s)
  }

  /** Lines 187-188 and 226: `initPlaceholder(); loadMockFiles(); ...
      updateFileCount();`. The rows are never changed, so the mocks are
      never loaded: either the container already has a child, or the
      placeholder just added is one. The placeholder is added exactly when
      the container had no children, and the label counts the rows. */
  function StartupSpec(s: ListState): (r: ListState)
    ensures r == ListState(s.rows, s.placeholder || ChildCount(s) == 0, CountLabel(|s.rows|), s.otherChildren)
  {
    UpdateCountSpec(LoadMockFilesSpec(InitPlaceholderSpec(s)))
  }

  /** An empty container ends up with the placeholder alone. */
  lemma StartupFromEmpty(text: string)
    ensures StartupSpec(ListState([], false, text, 0)) == ListState([], true, "0 items", 0)
  {
  }

  /** A container whose markup holds some other element but no row gets
      neither the placeholder nor the mocks. */
  lemma StartupBesideOtherElements(text: string, others: nat)
    requires others > 0
    ensures StartupSpec(ListState([], false, text, others)) == ListState([], false, "0 items", others)
  {
  }

  /** Had the mocks been loaded before the placeholder was considered, an
      empty container would show the four mocks. */
  lemma MocksFirstWouldLoad(text: string)
    ensures InitPlaceholderSpec(LoadMockFilesSpec(ListState([], false, text, 0))) == ListState(RowsOf(MockFiles()), false, "4 items", 0)
  {
  }

  /** The events that reach `handleFiles` after start-up. A drop runs both
      drop listeners (lines 158-162 and 207-211); the first calls the name
      `handleFiles`, which by then is bound to the wrapper, so the batch is
      handled twice. A pick runs both change listeners (lines 164-167 and
      213-216); the first clears the input, so the second sees no files. */
  datatype Event = Drop(files: seq<FileData>) | Pick(files: seq<FileData>)

  /** Any event leaves the placeholder removed; with no files it does
      nothing else, and with files the label counts the new rows. */
  function Step(s: ListState, e: Event): (r: ListState)
    ensures !r.placeholder && r.otherChildren == s.otherChildren
    ensures e.files == [] ==> r == s.(placeholder := false)
    ensures e.files != [] ==> Counted(r)
  {
    match e
    case Drop(files) => HandleSpec(HandleSpec(s, Some(files)), Some(files))
    case Pick(files) => HandleSpec(HandleSpec(s, Some(files)), Some([]))
  }

  function Run(s: ListState, events: seq<Event>): ListState
    decreases |events|
  {
    if events == [] then s else Run(Step(s, events[0]), events[1..])
  }

  /** The wrapped handler puts a batch's rows in front of the old ones. */
  lemma HandlePrependsRows(s: ListState, files: seq<FileData>)
    ensures HandleSpec(s, Some(files)).rows == RowsOf(files) + s.rows
  {
    var r := HandleSpec(s, Some(files));
    if files != [] {
      assert r.rows[|files|..] == s.rows;
    }
  }

  /** A non-empty batch handled by the wrapper: its rows go in front, the
      placeholder goes, and the label counts old and new rows together. */
  lemma HandleNonEmptyBatch(s: ListState, files: seq<FileData>)
    requires files != []
    ensures HandleSpec(s, Some(files))
      == ListState(RowsOf(files) + s.rows, false, CountLabel(|files| + |s.rows|), s.otherChildren)
  {
    HandlePrependsRows(s, files);
  }

  /** One drop shows the batch's rows twice, in batch order. */
  lemma DropAddsBatchTwice(s: ListState, files: seq<FileData>)
    ensures Step(s, Drop(files)).rows == RowsOf(files) + RowsOf(files) + s.rows
  {
    var once := HandleSpec(s, Some(files));
    HandlePrependsRows(s, files);
    HandlePrependsRows(once, files);
    ConcatAssociative(RowsOf(files), RowsOf(files), s.rows);
  }

  /** A pick of a batch shows its rows once, in batch order. */
  lemma PickAddsBatchOnce(s: ListState, files: seq<FileData>)
    ensures Step(s, Pick(files)).rows == RowsOf(files) + s.rows
  {
    HandlePrependsRows(s, files);
  }

  /** `shorter` is the tail of `longer`. */
  ghost predicate EndsWith(longer: seq<Row>, shorter: seq<Row>)
  {
    |shorter| <= |longer| && longer[|longer| - |shorter|..] == shorter
  }

  lemma EndsWithTransitive(a: seq<Row>, b: seq<Row>, c: seq<Row>)
    requires EndsWith(a, b) && EndsWith(b, c)
    ensures EndsWith(a, c)
  {
    assert a[|a| - |b|..][|b| - |c|..] == a[|a| - |c|..];
  }

  /** Every event keeps the invariants, keeps the earlier rows at the back
      in their order, and leaves the placeholder removed. */
  lemma StepKeepsInvariants(s: ListState, e: Event)
    requires Consistent(s) && Counted(s)
    ensures Consistent(Step(s, e)) && Counted(Step(s, e))
    ensures !Step(s, e).placeholder
    ensures EndsWith(Step(s, e).rows, s.rows)
  {
    var once := HandleSpec(s, Some(e.files));
    if e.files != [] {
      assert once.rows[|e.files|..] == s.rows;
    }
    assert EndsWith(once.rows, s.rows);
    var r := Step(s, e);
    if e.Drop? && e.files != [] {
      assert r.rows[|e.files|..] == once.rows;
      EndsWithTransitive(r.rows, once.rows, s.rows);
    }
  }

  /** Over a whole session the invariants hold in every state, rows already
      shown are never removed or reordered, and once any event has happened
      the placeholder never comes back. */
  lemma {:induction false} SessionKeepsInvariants(s: ListState, events: seq<Event>)
    requires Consistent(s) && Counted(s)
    ensures Consistent(Run(s, events)) && Counted(Run(s, events))
    ensures events != [] || !s.placeholder ==> !Run(s, events).placeholder
    ensures EndsWith(Run(s, events).rows, s.rows)
    decreases |events|
  {
    if events != [] {
      var t := Step(s, events[0]);
      StepKeepsInvariants(s, events[0]);
      SessionKeepsInvariants(t, events[1..]);
      assert Run(s, events) == Run(t, events[1..]);
      EndsWithTransitive(Run(t, events[1..]).rows, t.rows, s.rows);
    } else {
      assert s.rows[|s.rows| - |s.rows|..] == s.rows;
    }
  }

  /** From page load on: after start-up and any events, the placeholder is
      shown only in an empty list, the label always counts the rows, and
      the rows of the page's markup are still last, in their order. */
  lemma PageKeepsInvariants(markup: seq<Row>, others: nat, text: string, events: seq<Event>)
    ensures Consistent(Run(StartupSpec(ListState(markup, false, text, others)), events))
    ensures Counted(Run(StartupSpec(ListState(markup, false, text, others)), events))
    ensures EndsWith(Run(StartupSpec(ListState(markup, false, text, others)), events).rows, markup)
  {
    SessionKeepsInvariants(StartupSpec(ListState(markup, false, text, others)), events);
  }

  /** The `window` `load` handler (lines 190-198): with rows present it
      removes the placeholder and recounts; with none it writes
      `"0 items"` and leaves the placeholder as it is. */
  function LoadHandlerSpec(s: ListState): (r: ListState)
    ensures r.rows == s.rows && r.otherChildren == s.otherChildren && Counted(r)
    ensures r.placeholder <==> s.placeholder && s.rows == []
  {
    if |s.rows| > 0 then UpdateCountSpec(s.(placeholder := false))
    else
      CountLabelOfZero();
      s.(countText := "0 items")
  }

  /** On a state that keeps both invariants the `load` handler changes
      nothing. */
  lemma LoadHandlerChangesNothing(s: ListState)
    requires Consistent(s) && Counted(s)
    ensures LoadHandlerSpec(s) == s
  {
    if s.rows == [] {
      CountLabelOfZero();
    }
  }

  /** Whenever the `load` event fires after start-up, it changes nothing. */
  lemma PageLoadChangesNothing(markup: seq<Row>, others: nat, text: string, events: seq<Event>)
    ensures LoadHandlerSpec(Run(StartupSpec(ListState(markup, false, text, others)), events))
      == Run(StartupSpec(ListState(markup, false, text, others)), events)
  {
    PageKeepsInvariants(markup, others, text, events);
    LoadHandlerChangesNothing(Run(StartupSpec(ListState(markup, false, text, others)), events));
  }

  /** Handling `[A, B]` on the start-up state of an empty container shows
      `[A, B]`, not `[B, A]`: the batch goes to the front as one block and
      keeps its own order. */
  lemma BatchKeepsItsOrder(a: FileData, b: FileData)
    ensures HandleSpec(ListState([], true, "0 items", 0), Some([a, b]))
      == ListState([CreateFileItem(a), CreateFileItem(b)], false, "2 items", 0)
  {
    var s := ListState([], true, "0 items", 0);
    HandleNonEmptyBatch(s, [a, b]);
    ListOfTwo(RowsOf([a, b]) + s.rows, CreateFileItem(a), CreateFileItem(b));
    CountLabelOfTwo();
  }

  /** A later batch `[C]` then goes in front of it: `[C, A, B]`. */
  lemma LaterBatchGoesFirst(a: FileData, b: FileData, c: FileData)
    ensures HandleSpec(ListState([CreateFileItem(a), CreateFileItem(b)], false, "2 items", 0), Some([c])).rows
      == [CreateFileItem(c), CreateFileItem(a), CreateFileItem(b)]
  {
    var s := ListState([CreateFileItem(a), CreateFileItem(b)], false, "2 items", 0);
    HandlePrependsRows(s, [c]);
    ListOfThree(RowsOf([c]) + s.rows, CreateFileItem(c), CreateFileItem(a), CreateFileItem(b));
  }

  /** An empty batch handled on the start-up state of an empty container
      removes the placeholder and adds nothing. */
  lemma EmptyBatchRemovesPlaceholder()
    ensures HandleSpec(ListState([], true, "0 items", 0), Some([])) == ListState([], false, "0 items", 0)
  {
  }

  /** The container, holding the same state in fields that the methods
      below update in place. */
  class FileList {
    var rows: seq<Row>
    var placeholder: bool
    var countText: string
    var otherChildren: nat

    function State(): ListState
      reads this
    {
      ListState(rows, placeholder, countText, otherChildren)
    }

    /** The page as loaded: the container holds whatever rows and other
        elements its markup has, no placeholder yet, and the label holds its
        markup text. */
    constructor (markup: seq<Row>, others: nat, text: string)
      ensures State() == ListState(markup, false, text, others)
    {
      rows := markup;
      placeholder := false;
      countText := text;
      otherChildren := others;
    }

    method UpdateFileCount()
      modifies this
      ensures State() == UpdateCountSpec(old(State()))
    {
      var count := |rows|;
      countText := CountLabel(count);
    }

    method AddFilesToUI(files: Option<seq<FileData>>, prepend: bool)
      modifies this
      ensures State() == AddFilesSpec(old(State()), files, prepend)
    {
      if IsEmptyBatch(files) {
        return;
      }
      placeholder := false;
      var batch := files.value;
      var fragment: seq<Row> := [];
      for i := 0 to |batch|
        invariant fragment == RowsOf(batch[..i])
        invariant rows == old(rows) && countText == old(countText) && otherChildren == old(otherChildren)
        invariant !placeholder
      {
        assert batch[..i + 1] == batch[..i] + [batch[i]];
        RowsOfSnoc(batch[..i], batch[i]);
        fragment := fragment + [CreateFileItem(batch[i])];
      }
      assert batch[..|batch|] == batch;
      if prepend {
        rows := fragment + rows;
      } else {
        rows := rows + fragment;
      }
      UpdateFileCount();
    }

    /** `handleFiles` as first defined (lines 119-123). */
    method HandleFilesOriginal(files: Option<seq<FileData>>)
      modifies this
      ensures State() == AddFilesSpec(old(State()), files, true)
    {
      if IsEmptyBatch(files) {
        return;
      }
      AddFilesToUI(Some(files.value), true);
    }

    /** `handleFiles` as re-wrapped (lines 200-205). */
    method HandleFiles(files: Option<seq<FileData>>)
      modifies this
      ensures State() == HandleSpec(old(State()), files)
    {
      placeholder := false;
      HandleFilesOriginal(files);
    }

    method InitPlaceholder()
      modifies this
      ensures State() == InitPlaceholderSpec(old(State()))
    {
      if ChildCount(State()) == 0 {
        placeholder := true;
      }
    }

    /** The `forEach` of `loadMockFiles`: each file is appended as a batch
        of its own, in order. */
    method AppendEachFile(files: seq<FileData>)
      modifies this
      ensures State() == AppendEach(old(State()), files)
    {
      for i := 0 to |files|
        invariant State() == AppendEach(old(State()), files[..i])
      {
        assert files[..i + 1][..i] == files[..i];
        AddFilesToUI(Some([files[i]]), false);
      }
      assert files[..|files|] == files;
    }

    method LoadMockFiles()
      modifies this
      ensures State() == LoadMockFilesSpec(old(State()))
    {
      if ChildCount(State()) == 0 {
        AppendEachFile(MockFiles());
      }
      UpdateFileCount();
    }

    /** The script's top-level start-up sequence. */
    method Startup()
      modifies this
      ensures State() == StartupSpec(old(State()))
    {
      InitPlaceholder();
      LoadMockFiles();
      UpdateFileCount();
    }

    /** A drop event: both drop listeners hand the same files to the wrapper. */
    method OnDrop(files: seq<FileData>)
      modifies this
      ensures State() == Step(old(State()), Drop(files))
    {
      HandleFiles(Some(files));
      HandleFiles(Some(files));
    }

    /** A change event of the file input: the first listener handles the
        files and clears the input; the second then finds it empty. */
    method OnPick(files: seq<FileData>)
      modifies this
      ensures State() == Step(old(State()), Pick(files))
    {
      HandleFiles(Some(files));
      HandleFiles(Some([]));
    }

    /** The `window` `load` event. */
    method OnLoad()
      modifies this
      ensures State() == LoadHandlerSpec(old(State()))
    {
      if |rows| > 0 {
        placeholder := false;
        UpdateFileCount();
      } else {
        countText := "0 items";
      }
    }
  }
}
