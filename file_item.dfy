/** What `createFileItem` (static/main.js:30-43) puts in a row, without the
    DOM markup: the name as given, the icon class of the name, the size
    decision of `formatFileSize`, and a date string. */
module FileItem {
  import opened Wrappers
  import opened FileSize
  import opened FileIcons

  /** The two kinds of input the function accepts: a browser `File` (from a
      drop or the file picker), or a plain record such as the mock files,
      whose `date` may be missing. */
  datatype FileData =
    | BrowserFile(name: string, size: nat)
    | PlainRecord(name: string, size: nat, date: Option<string>)

  /** One rendered `.file-item` row. */
  datatype Row = Row(name: string, iconClass: string, size: SizeText, date: string)

  const JustNow: string := "just now"
  const DefaultDate: string := "shared 1 hour ago"

  /** `fileData.date || 'shared 1 hour ago'`: JavaScript's `||` falls back on
      `undefined` and on the empty string alike. */
  function RecordDate(date: Option<string>): (r: string)
    ensures r != ""
    ensures date.Some? && date.value != "" ==> r == date.value
    ensures date == None || date == Some("") ==> r == DefaultDate
  {
    match date
    case Some(d) => if d != "" then d else DefaultDate
    case None => DefaultDate
  }

  function CreateFileItem(data: FileData): (r: Row)
    ensures r.name == data.name
    ensures r.iconClass == GetFileIconClass(data.name)
    ensures r.size == FormatFileSize(data.size)
    ensures r.date != ""
    ensures data.BrowserFile? ==> r.date == JustNow
    ensures data.PlainRecord? ==> r.date == RecordDate(data.date)
  {
    var date := if data.BrowserFile? then JustNow else RecordDate(data.date);
    Row(data.name, GetFileIconClass(data.name), FormatFileSize(data.size), date)
  }

  /** The rows of a batch, one per file, in the batch's order: what the
      `for` loop of `addFilesToUI` collects in its fragment. */
  function RowsOf(files: seq<FileData>): (r: seq<Row>)
    ensures |r| == |files|
    ensures forall i :: 0 <= i < |files| ==> r[i] == CreateFileItem(files[i])
  {
    seq(|files|, i requires 0 <= i < |files| => CreateFileItem(files[i]))
  }

  /** One more file gives one more row at the end. */
  lemma RowsOfSnoc(files: seq<FileData>, f: FileData)
    ensures RowsOf(files + [f]) == RowsOf(files) + [CreateFileItem(f)]
  {
  }

  /** Rows of a concatenation are the concatenation of the rows. */
  lemma RowsOfAppend(a: seq<FileData>, b: seq<FileData>)
    ensures RowsOf(a + b) == RowsOf(a) + RowsOf(b)
  {
  }

  /** The four mock records of static/main.js:125-130, in order: plain
      records that each carry their own non-empty date. Their sizes there
      are floating-point products such as `2.4 * 1024 * 1024`; here they are
      the integer parts, which fall in the same unit. */
  function MockFiles(): (r: seq<FileData>)
    ensures |r| == 4
    ensures forall i :: 0 <= i < |r| ==> r[i].PlainRecord? && r[i].date.Some? && r[i].date.value != ""
  {
    [
      PlainRecord("vacation_planning.pdf", 2516582, Some("shared 2 hours ago")),
      PlainRecord("team_photo_2025.jpg", 5347737, Some("shared yesterday")),
      PlainRecord("presentation_deck.pptx", 3984588, Some("shared 3 days ago")),
      PlainRecord("notes_onboarding.txt", 131072, Some("shared last week"))
    ]
  }
}
