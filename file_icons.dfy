/** `getFileIconClass` (static/main.js:16-28): the lower-cased text after the
    last `.` of a file name, classified through nine fixed extension lists. */
module FileIcons {
  import opened TextUtil

  /** The ten Font Awesome classes the classifier can return. */
  datatype Icon = Image | Pdf | Lines | Excel | Powerpoint | Zipper | Audio | Video | Code | Generic

  function ClassName(icon: Icon): string
  {
    match icon
    case Image => "fa-file-image"
    case Pdf => "fa-file-pdf"
    case Lines => "fa-file-lines"
    case Excel => "fa-file-excel"
    case Powerpoint => "fa-file-powerpoint"
    case Zipper => "fa-file-zipper"
    case Audio => "fa-file-audio"
    case Video => "fa-file-video"
    case Code => "fa-file-code"
    case Generic => "fa-file"
  }

  /** The extension list tested for each class; the generic class has none. */
  function Extensions(icon: Icon): seq<string>
  {
    match icon
    case Image => ["jpg", "jpeg", "png", "gif", "svg", "webp"]
    case Pdf => ["pdf"]
    case Lines => ["doc", "docx", "txt", "rtf", "odt"]
    case Excel => ["xls", "xlsx", "csv"]
    case Powerpoint => ["ppt", "pptx"]
    case Zipper => ["zip", "rar", "7z", "tar", "gz"]
    case Audio => ["mp3", "wav", "ogg", "flac"]
    case Video => ["mp4", "avi", "mov", "mkv"]
    case Code => ["js", "html", "css", "py", "java", "cpp", "json"]
    case Generic => []
  }

  /** The `if` chain over an already lower-cased extension. */
  function IconOfExtension(ext: string): (r: Icon)
    ensures r != Generic ==> ext in Extensions(r)
  {
    if ext in Extensions(Image) then Image
    else if ext in Extensions(Pdf) then Pdf
    else if ext in Extensions(Lines) then Lines
    else if ext in Extensions(Excel) then Excel
    else if ext in Extensions(Powerpoint) then Powerpoint
    else if ext in Extensions(Zipper) then Zipper
    else if ext in Extensions(Audio) then Audio
    else if ext in Extensions(Video) then Video
    else if ext in Extensions(Code) then Code
    else Generic
  }

  /** Each extension of a list is classified under that list. */
  lemma ImageRecognised(ext: string)
    requires ext in Extensions(Image)
    ensures IconOfExtension(ext) == Image
  {
  }

  lemma PdfRecognised(ext: string)
    requires ext in Extensions(Pdf)
    ensures IconOfExtension(ext) == Pdf
  {
  }

  lemma LinesRecognised(ext: string)
    requires ext in Extensions(Lines)
    ensures IconOfExtension(ext) == Lines
  {
  }

  lemma ExcelRecognised(ext: string)
    requires ext in Extensions(Excel)
    ensures IconOfExtension(ext) == Excel
  {
  }

  lemma PowerpointRecognised(ext: string)
    requires ext in Extensions(Powerpoint)
    ensures IconOfExtension(ext) == Powerpoint
  {
  }

  lemma ZipperRecognised(ext: string)
    requires ext in Extensions(Zipper)
    ensures IconOfExtension(ext) == Zipper
  {
  }

  lemma AudioRecognised(ext: string)
    requires ext in Extensions(Audio)
    ensures IconOfExtension(ext) == Audio
  {
  }

  lemma VideoRecognised(ext: string)
    requires ext in Extensions(Video)
    ensures IconOfExtension(ext) == Video
  {
  }

  lemma CodeRecognised(ext: string)
    requires ext in Extensions(Code)
    ensures IconOfExtension(ext) == Code
  {
  }

  /** Every listed extension is classified under its own list. */
  lemma ListedExtensionIsRecognised(c: Icon, ext: string)
    requires ext in Extensions(c)
    ensures IconOfExtension(ext) == c
  {
    match c
    case Image => ImageRecognised(ext);
    case Pdf => PdfRecognised(ext);
    case Lines => LinesRecognised(ext);
    case Excel => ExcelRecognised(ext);
    case Powerpoint => PowerpointRecognised(ext);
    case Zipper => ZipperRecognised(ext);
    case Audio => AudioRecognised(ext);
    case Video => VideoRecognised(ext);
    case Code => CodeRecognised(ext);
  }

  /** No extension is in two lists. */
  lemma ListsDisjoint(ext: string, a: Icon, b: Icon)
    requires ext in Extensions(a) && ext in Extensions(b)
    ensures a == b
  {
    ListedExtensionIsRecognised(a, ext);
    ListedExtensionIsRecognised(b, ext);
  }

  /** The result of the chain is the one class whose list holds `ext` (so the
      order of the tests does not matter), and the generic class exactly when
      no list holds it. */
  lemma IconIsTheListHoldingExtension(ext: string)
    ensures forall c: Icon :: c != Generic ==> (ext in Extensions(c) <==> IconOfExtension(ext) == c)
    ensures IconOfExtension(ext) == Generic <==> forall c: Icon :: ext !in Extensions(c)
  {
    forall c: Icon | ext in Extensions(c) ensures IconOfExtension(ext) == c {
      ListedExtensionIsRecognised(c, ext);
    }
  }

  /** `fileName.split('.').pop().toLowerCase()`. */
  function ExtensionOf(fileName: string): (ext: string)
    ensures |ext| <= |fileName| && '.' !in ext
    ensures forall i :: 0 <= i < |ext| ==> !('A' <= ext[i] <= 'Z')
  {
    AfterLastIsTextAfterLast(fileName, '.');
    Lower(AfterLast(fileName, '.'))
  }

  function FileIcon(fileName: string): Icon
  {
    IconOfExtension(ExtensionOf(fileName))
  }

  /** `getFileIconClass(fileName)`: always one of the ten classes. */
  function GetFileIconClass(fileName: string): (r: string)
    ensures exists c: Icon :: r == ClassName(c)
  {
    ClassName(FileIcon(fileName))
  }

  /** The ten classes are distinct, so the class name identifies the icon. */
  lemma ClassNameInjective(a: Icon, b: Icon)
    requires ClassName(a) == ClassName(b)
    ensures a == b
  {
  }

  /** The extension is the lower-cased text after the last `.` of the name:
      a dot-free suffix of the name that is the whole name or follows a dot. */
  lemma ExtensionIsAfterLastDot(fileName: string)
    ensures exists e :: IsTextAfterLast(fileName, '.', e) && ExtensionOf(fileName) == Lower(e)
  {
    AfterLastIsTextAfterLast(fileName, '.');
  }

  /** Names that agree up to ASCII case get the same icon. */
  lemma IconCaseInsensitive(a: string, b: string)
    requires Lower(a) == Lower(b)
    ensures GetFileIconClass(a) == GetFileIconClass(b)
  {
    AfterLastDotOfLower(a);
    AfterLastDotOfLower(b);
  }

  /** The extension of a name, read off a known text after its last dot. */
  lemma ExtensionFromSuffix(fileName: string, e: string)
    requires IsTextAfterLast(fileName, '.', e)
    ensures ExtensionOf(fileName) == Lower(e)
  {
    AfterLastIsTextAfterLast(fileName, '.');
    TextAfterLastUnique(fileName, '.', AfterLast(fileName, '.'), e);
  }

  /** The icon of a name, read off a known text after its last dot. */
  lemma IconFromSuffix(fileName: string, e: string, icon: Icon)
    requires IsTextAfterLast(fileName, '.', e)
    requires IconOfExtension(Lower(e)) == icon
    ensures GetFileIconClass(fileName) == ClassName(icon)
  {
    ExtensionFromSuffix(fileName, e);
  }

  /** A name without a dot is looked up whole: `"pdf"` is a PDF ... */
  lemma IconOfBareExtension()
    ensures GetFileIconClass("pdf") == "fa-file-pdf"
  {
    assert Lower("pdf") == "pdf";
    IconFromSuffix("pdf", "pdf", Pdf);
  }

  /** ... and `"README"` is in no list. */
  lemma IconOfDotlessName()
    ensures GetFileIconClass("README") == "fa-file"
  {
    assert Lower("README") == "readme";
    IconFromSuffix("README", "README", Generic);
  }

  /** A trailing dot leaves an empty extension, which is in no list. */
  lemma IconOfTrailingDot()
    ensures GetFileIconClass("report.") == "fa-file"
  {
    IconFromSuffix("report.", "", Generic);
  }

  /** The extension's case does not matter. */
  lemma IconOfUpperCaseExtension()
    ensures GetFileIconClass("photo.JPG") == "fa-file-image"
  {
    assert Lower("JPG") == "jpg";
    IconFromSuffix("photo.JPG", "JPG", Image);
  }

  /** Only the text after the last dot counts. */
  lemma IconOfDoubleExtension()
    ensures GetFileIconClass("backup.tar.gz") == "fa-file-zipper"
  {
    assert Lower("gz") == "gz";
    IconFromSuffix("backup.tar.gz", "gz", Zipper);
  }
}
