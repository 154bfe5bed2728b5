/**
 * The classifier: a file goes to the first category of the extension table
 * whose extension set holds its lower-cased suffix, and to Other when none
 * does.
 */
module Classifier {

  import opened Paths

  datatype Category =
    | Images | Documents | Spreadsheets | Slides | Audio
    | Video | Archives | Installers | Code | Other

  /** The name of the category's folder under the downloads directory. */
  function FolderName(c: Category): Name {
    match c
    case Images => "Images"
    case Documents => "Documents"
    case Spreadsheets => "Spreadsheets"
    case Slides => "Slides"
    case Audio => "Audio"
    case Video => "Video"
    case Archives => "Archives"
    case Installers => "Installers"
    case Code => "Code"
    case Other => "Other"
  }

  /** The extension table, in the order the lookup walks it. */
  const ExtMap: seq<(Category, set<string>)> := [
    (Images, {".jpg", ".jpeg", ".png", ".gif", ".bmp", ".tiff", ".tif", ".webp", ".heic", ".svg"}),
    (Documents, {".pdf", ".doc", ".docx", ".txt", ".rtf", ".odt", ".md"}),
    (Spreadsheets, {".xls", ".xlsx", ".csv", ".tsv", ".ods"}),
    (Slides, {".ppt", ".pptx", ".key"}),
    (Audio, {".mp3", ".wav", ".m4a", ".aac", ".flac", ".ogg"}),
    (Video, {".mp4", ".mov", ".avi", ".mkv", ".wmv", ".m4v"}),
    (Archives, {".zip", ".rar", ".7z", ".tar", ".gz", ".bz2"}),
    (Installers, {".exe", ".msi", ".msix"}),
    (Code, {".py", ".ipynb", ".java", ".c", ".cpp", ".h", ".hpp", ".js", ".ts",
            ".html", ".css", ".json", ".xml", ".yml", ".yaml", ".sql", ".sh", ".bat", ".ps1"})
  ]

  /** The category folders: every table category, then the fallback. */
  const AllCategories: seq<Category> :=
    [Images, Documents, Spreadsheets, Slides, Audio, Video, Archives, Installers, Code, Other]

  /** The position of a category's folder in `AllCategories`. */
  function FolderIndex(c: Category): (i: nat)
    ensures i < |AllCategories| && AllCategories[i] == c
  {
    match c
    case Images => 0
    case Documents => 1
    case Spreadsheets => 2
    case Slides => 3
    case Audio => 4
    case Video => 5
    case Archives => 6
    case Installers => 7
    case Code => 8
    case Other => 9
  }

  /** The position of the first table row whose set holds `ext`, or -1. */
  function FirstMatch(table: seq<(Category, set<string>)>, ext: string): (k: int)
    ensures -1 <= k < |table|
    ensures 0 <= k ==> ext in table[k].1
    ensures forall j :: 0 <= j < |table| && (k == -1 || j < k) ==> ext !in table[j].1
  {
    if table == [] then -1
    else if ext in table[0].1 then 0
    else
      var k := FirstMatch(table[1..], ext);
      assert forall j :: 1 <= j < |table| ==> table[j] == table[1..][j - 1];
      if k == -1 then -1 else k + 1
  }

  /** The category of an already lower-cased extension. */
  function CategoryForExt(ext: string): Category {
    var k := FirstMatch(ExtMap, ext);
    if k == -1 then Other else ExtMap[k].0
  }

  /** `category_for_file`: the category of a file, from its name's suffix. */
  function CategoryForName(n: Name): Category {
    CategoryForExt(Lower(Suffix(n)))
  }

  /** The table row of a category, or -1 for the fallback (the last folder, which has no row). */
  function RowOf(c: Category): int {
    if c == Other then -1 else FolderIndex(c)
  }

  /** The extensions a category owns (none for the fallback). */
  function Extensions(c: Category): set<string> {
    if RowOf(c) == -1 then {} else ExtMap[RowOf(c)].1
  }

  /** `category_for_file` walks the table row by row and returns at the first hit. */
  method CategoryForFile(n: Name) returns (c: Category)
    ensures c == CategoryForName(n)
    ensures c != Other <==> exists j :: 0 <= j < |ExtMap| && Lower(Suffix(n)) in ExtMap[j].1
  {
    var ext := Lower(Suffix(n));
    var j := 0;
    while j < |ExtMap|
      invariant 0 <= j <= |ExtMap|
      invariant forall i :: 0 <= i < j ==> ext !in ExtMap[i].1
    {
      if ext in ExtMap[j].1 {
        assert FirstMatch(ExtMap, ext) == j;
        return ExtMap[j].0;
      }
      j := j + 1;
    }
    c := Other;
  }

  /** The table rows are the nine non-fallback categories, each once, in table order. */
  lemma TableRows()
    ensures |ExtMap| == 9
    ensures forall j :: 0 <= j < |ExtMap| ==> ExtMap[j].0 == AllCategories[j] && RowOf(ExtMap[j].0) == j
    ensures forall c :: RowOf(c) == -1 <==> c == Other
    ensures forall c :: -1 <= RowOf(c) < |ExtMap|
  {
  }

  // One lemma per pair of table rows: each pair shares no extension.
  lemma Rows0And1Disjoint() ensures ExtMap[0].1 !! ExtMap[1].1 { }
  lemma Rows0And2Disjoint() ensures ExtMap[0].1 !! ExtMap[2].1 { }
  lemma Rows0And3Disjoint() ensures ExtMap[0].1 !! ExtMap[3].1 { }
  lemma Rows0And4Disjoint() ensures ExtMap[0].1 !! ExtMap[4].1 { }
  lemma Rows0And5Disjoint() ensures ExtMap[0].1 !! ExtMap[5].1 { }
  lemma Rows0And6Disjoint() ensures ExtMap[0].1 !! ExtMap[6].1 { }
  lemma Rows0And7Disjoint() ensures ExtMap[0].1 !! ExtMap[7].1 { }
  lemma Rows0And8Disjoint() ensures ExtMap[0].1 !! ExtMap[8].1 { }
  lemma Rows1And2Disjoint() ensures ExtMap[1].1 !! ExtMap[2].1 { }
  lemma Rows1And3Disjoint() ensures ExtMap[1].1 !! ExtMap[3].1 { }
  lemma Rows1And4Disjoint() ensures ExtMap[1].1 !! ExtMap[4].1 { }
  lemma Rows1And5Disjoint() ensures ExtMap[1].1 !! ExtMap[5].1 { }
  lemma Rows1And6Disjoint() ensures ExtMap[1].1 !! ExtMap[6].1 { }
  lemma Rows1And7Disjoint() ensures ExtMap[1].1 !! ExtMap[7].1 { }
  lemma Rows1And8Disjoint() ensures ExtMap[1].1 !! ExtMap[8].1 { }
  lemma Rows2And3Disjoint() ensures ExtMap[2].1 !! ExtMap[3].1 { }
  lemma Rows2And4Disjoint() ensures ExtMap[2].1 !! ExtMap[4].1 { }
  lemma Rows2And5Disjoint() ensures ExtMap[2].1 !! ExtMap[5].1 { }
  lemma Rows2And6Disjoint() ensures ExtMap[2].1 !! ExtMap[6].1 { }
  lemma Rows2And7Disjoint() ensures ExtMap[2].1 !! ExtMap[7].1 { }
  lemma Rows2And8Disjoint() ensures ExtMap[2].1 !! ExtMap[8].1 { }
  lemma Rows3And4Disjoint() ensures ExtMap[3].1 !! ExtMap[4].1 { }
  lemma Rows3And5Disjoint() ensures ExtMap[3].1 !! ExtMap[5].1 { }
  lemma Rows3And6Disjoint() ensures ExtMap[3].1 !! ExtMap[6].1 { }
  lemma Rows3And7Disjoint() ensures ExtMap[3].1 !! ExtMap[7].1 { }
  lemma Rows3And8Disjoint() ensures ExtMap[3].1 !! ExtMap[8].1 { }
  lemma Rows4And5Disjoint() ensures ExtMap[4].1 !! ExtMap[5].1 { }
  lemma Rows4And6Disjoint() ensures ExtMap[4].1 !! ExtMap[6].1 { }
  lemma Rows4And7Disjoint() ensures ExtMap[4].1 !! ExtMap[7].1 { }
  lemma Rows4And8Disjoint() ensures ExtMap[4].1 !! ExtMap[8].1 { }
  lemma Rows5And6Disjoint() ensures ExtMap[5].1 !! ExtMap[6].1 { }
  lemma Rows5And7Disjoint() ensures ExtMap[5].1 !! ExtMap[7].1 { }
  lemma Rows5And8Disjoint() ensures ExtMap[5].1 !! ExtMap[8].1 { }
  lemma Rows6And7Disjoint() ensures ExtMap[6].1 !! ExtMap[7].1 { }
  lemma Rows6And8Disjoint() ensures ExtMap[6].1 !! ExtMap[8].1 { }
  lemma Rows7And8Disjoint() ensures ExtMap[7].1 !! ExtMap[8].1 { }

  /** No extension belongs to two rows of the table. */
  lemma TableRowsDisjoint()
    ensures forall i, j :: 0 <= i < j < |ExtMap| ==> ExtMap[i].1 !! ExtMap[j].1
  {
    Rows0And1Disjoint(); Rows0And2Disjoint(); Rows0And3Disjoint(); Rows0And4Disjoint(); Rows0And5Disjoint(); Rows0And6Disjoint(); Rows0And7Disjoint(); Rows0And8Disjoint();
    Rows1And2Disjoint(); Rows1And3Disjoint(); Rows1And4Disjoint(); Rows1And5Disjoint(); Rows1And6Disjoint(); Rows1And7Disjoint(); Rows1And8Disjoint();
    Rows2And3Disjoint(); Rows2And4Disjoint(); Rows2And5Disjoint(); Rows2And6Disjoint(); Rows2And7Disjoint(); Rows2And8Disjoint();
    Rows3And4Disjoint(); Rows3And5Disjoint(); Rows3And6Disjoint(); Rows3And7Disjoint(); Rows3And8Disjoint();
    Rows4And5Disjoint(); Rows4And6Disjoint(); Rows4And7Disjoint(); Rows4And8Disjoint();
    Rows5And6Disjoint(); Rows5And7Disjoint(); Rows5And8Disjoint();
    Rows6And7Disjoint(); Rows6And8Disjoint();
    Rows7And8Disjoint();
  }

  /**
   * A file falls in a table category exactly when that category owns its
   * lower-cased suffix, and in Other exactly when no category does.
   */
  lemma CategoryIsOwner(n: Name, c: Category)
    ensures CategoryForName(n) == c <==>
      if c == Other then forall d :: Lower(Suffix(n)) !in Extensions(d)
      else Lower(Suffix(n)) in Extensions(c)
  {
    var ext := Lower(Suffix(n));
    var k := FirstMatch(ExtMap, ext);
    TableRows();
    if c == Other {
      if k != -1 {
        assert ext in Extensions(ExtMap[k].0);
      }
    } else if ext in Extensions(c) {
      TableRowsDisjoint();
      assert ext in ExtMap[RowOf(c)].1;
      assert k != -1;
      assert k == RowOf(c);
    }
  }

  /** A name without a suffix (no dot, a leading dot only, a trailing dot) is filed under Other. */
  lemma NoSuffixIsOther(n: Name)
    requires !HasSuffix(n)
    ensures CategoryForName(n) == Other
  {
    assert Lower(Suffix(n)) == "";
  }

  lemma ImageExample()
    ensures CategoryForName("photo.png") == Images
  {
    SuffixAt("photo.png", 5);
    assert Lower(".png") == ".png";
  }

  lemma UpperCaseExample()
    ensures CategoryForName("REPORT.PDF") == Documents
  {
    SuffixAt("REPORT.PDF", 6);
    assert Lower(".PDF") == ".pdf";
  }

  /** Only the last suffix counts, in either letter case. */
  lemma DoubleSuffixExample()
    ensures CategoryForName("holiday.photo.JPG") == Images
  {
    SuffixAt("holiday.photo.JPG", 13);
    assert Lower(".JPG") == ".jpg";
  }

  /** A number in brackets before the suffix does not change the category. */
  lemma NumberedImageExample()
    ensures CategoryForName("photo (1).png") == Images
  {
    SuffixAt("photo (1).png", 9);
    assert Lower(".png") == ".png";
  }
}
