/**
 * The journal: one JSON object per line, appended for every attempted move.
 * A line is modelled by what `json.loads` gives for it; the text encoding of
 * JSON itself is not part of the model.
 */
module Journal {

  import opened Wrappers
  import opened Paths
  import opened Classifier

  /** A JSON value, as far as the sorter looks at it. */
  datatype JValue = JStr(s: string) | JInt(i: int) | JOther

  /** One journal line: a JSON object, some other JSON document, or text that is not JSON. */
  datatype Line = JObject(fields: map<string, JValue>) | JNotObject | Unparseable

  /** Why a planned move did not happen. */
  datatype ErrorKind = SourceMissing | DestinationExists | OsFailure

  /** `repr(e)` of the exception, reduced to its kind. */
  function ErrorText(k: ErrorKind): string {
    match k
    case SourceMissing => "FileNotFoundError"
    case DestinationExists => "shutil.Error"
    case OsFailure => "OSError"
  }

  /** A journal record: a completed move or a failed attempt. */
  datatype Record =
    | MoveRecord(category: Category, src: Path, dst: Path, size: nat, mtime: int)
    | ErrorRecord(src: Path, dst: Path, error: ErrorKind)

  /** The JSON object `write_log_line` writes for a record. */
  function Fields(r: Record): map<string, JValue> {
    match r
    case MoveRecord(c, src, dst, size, mtime) =>
      map["action" := JStr("move"), "category" := JStr(FolderName(c)),
          "src" := JStr(Text(src)), "dst" := JStr(Text(dst)),
          "size_bytes" := JInt(size), "mtime_epoch" := JInt(mtime)]
    case ErrorRecord(src, dst, e) =>
      map["action" := JStr("error"), "src" := JStr(Text(src)), "dst" := JStr(Text(dst)),
          "error" := JStr(ErrorText(e))]
  }

  function Encode(r: Record): Line {
    JObject(Fields(r))
  }

  function EncodeAll(rs: seq<Record>): (ls: seq<Line>)
    ensures |ls| == |rs|
  {
    if rs == [] then [] else EncodeAll(rs[..|rs| - 1]) + [Encode(rs[|rs| - 1])]
  }

  lemma EncodeAllAppend(rs: seq<Record>, r: Record)
    ensures EncodeAll(rs + [r]) == EncodeAll(rs) + [Encode(r)]
  {
    assert (rs + [r])[..|rs|] == rs;
  }

  /** The completed moves among `rs`, in order. */
  function MoveRecords(rs: seq<Record>): seq<Record> {
    if rs == [] then []
    else MoveRecords(rs[..|rs| - 1]) + (if rs[|rs| - 1].MoveRecord? then [rs[|rs| - 1]] else [])
  }

  /** When every record is a `move` record, all of them are kept. */
  lemma {:induction false} MoveRecordsAll(rs: seq<Record>)
    requires forall i :: 0 <= i < |rs| ==> rs[i].MoveRecord?
    ensures MoveRecords(rs) == rs
    decreases |rs|
  {
    if rs != [] {
      MoveRecordsAll(rs[..|rs| - 1]);
    }
  }

  /** The number of `move` records among `rs`: `moved_count`. */
  function CountMoves(rs: seq<Record>): nat {
    if rs == [] then 0
    else CountMoves(rs[..|rs| - 1]) + (if rs[|rs| - 1].MoveRecord? then 1 else 0)
  }

  /**
   * What the undo keeps of a line: the object when it is one whose "action"
   * is "move" (`rec.get("action") == "move"`); every other line is skipped.
   */
  function ParseMoveLine(line: Line): (r: Option<map<string, JValue>>)
    ensures r.Some? <==> line.JObject? && "action" in line.fields && line.fields["action"] == JStr("move")
    ensures r.Some? ==> r.value == line.fields
  {
    if line.JObject? && "action" in line.fields && line.fields["action"] == JStr("move")
    then Some(line.fields) else None
  }

  /** The kept `move` objects of a journal, in journal order. */
  function MovesOf(lines: seq<Line>): seq<map<string, JValue>> {
    if lines == [] then []
    else
      var last := ParseMoveLine(lines[|lines| - 1]);
      MovesOf(lines[..|lines| - 1]) + (if last.Some? then [last.value] else [])
  }

  /**
   * The two paths the undo reads from a kept object: `Path(rec["dst"])`,
   * where the file is now, and `Path(rec["src"])`, where it came from. None
   * when a key is missing or its value is not the text of a path: the undo
   * stops there.
   */
  function UndoPaths(f: map<string, JValue>): Option<(Path, Path)> {
    if "dst" in f && f["dst"].JStr? && "src" in f && f["src"].JStr? then
      match (ParseText(f["dst"].s), ParseText(f["src"].s))
      case (Some(from), Some(to)) => Some((from, to))
      case _ => None
    else None
  }

  /** A `move` line is kept by the undo, and tells it where the file went and where it came from. */
  lemma MoveLineRoundTrip(r: Record)
    requires r.MoveRecord? && ValidPath(r.src) && ValidPath(r.dst)
    ensures ParseMoveLine(Encode(r)) == Some(Fields(r))
    ensures UndoPaths(Fields(r)) == Some((r.dst, r.src))
  {
    TextRoundTrip(r.src);
    TextRoundTrip(r.dst);
  }

  /** An `error` line is skipped by the undo. */
  lemma ErrorLineSkipped(r: Record)
    requires r.ErrorRecord?
    ensures ParseMoveLine(Encode(r)) == None
  {
    assert Fields(r)["action"] == JStr("error");
  }

  lemma {:induction false} MovesOfAppend(a: seq<Line>, b: seq<Line>)
    ensures MovesOf(a + b) == MovesOf(a) + MovesOf(b)
    decreases |b|
  {
    if b == [] {
      assert a + b == a;
    } else {
      assert (a + b)[..|a + b| - 1] == a + b[..|b| - 1];
      MovesOfAppend(a, b[..|b| - 1]);
    }
  }

  /** The objects the undo keeps from the lines of `rs` are those of the `move` records of `rs`, in order. */
  lemma {:induction false} MovesOfEncoded(rs: seq<Record>)
    requires forall i :: 0 <= i < |rs| ==> ValidPath(rs[i].src) && ValidPath(rs[i].dst)
    ensures |MovesOf(EncodeAll(rs))| == |MoveRecords(rs)| == CountMoves(rs)
    ensures forall i :: 0 <= i < |MoveRecords(rs)| ==>
      MoveRecords(rs)[i].MoveRecord? && MoveRecords(rs)[i] in rs &&
      MovesOf(EncodeAll(rs))[i] == Fields(MoveRecords(rs)[i])
    decreases |rs|
  {
    if rs != [] {
      var init, last := rs[..|rs| - 1], rs[|rs| - 1];
      MovesOfEncoded(init);
      assert EncodeAll(rs)[..|rs| - 1] == EncodeAll(init);
      if last.MoveRecord? {
        MoveLineRoundTrip(last);
      } else {
        ErrorLineSkipped(last);
      }
      forall i | 0 <= i < |MoveRecords(rs)|
        ensures MoveRecords(rs)[i] in rs
      {
        if i < |MoveRecords(init)| {
          assert MoveRecords(rs)[i] == MoveRecords(init)[i];
          assert MoveRecords(init)[i] in init;
        }
      }
    }
  }
}
