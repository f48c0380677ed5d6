// The Flask `/upload` endpoint: the checks on the multipart form, and the
// saving of the four files under the fixed names video1..video4, each with
// the extension of its secured name or `.mp4`.
module ServerUpload {
  import opened Strings
  import opened Wire

  const VideosField := "videos"
  const UploadFolderName := "uploads"
  const DefaultExt := ".mp4"
  const NoFilesPartMessage := "No files part in the request"
  const ExactlyFourFilesMessage := "Exactly 4 files are required"
  const NoFilenameMessage := "One of the files has no filename"
  const UploadedMessage := "Files successfully uploaded"

  datatype UploadBody = UploadError(error: string) | UploadDone(message: string, files: seq<string>)

  datatype UploadResponse = UploadResponse(status: nat, body: UploadBody)

  /** `request.files.getlist(field)`: the files sent under that field, in form order. */
  function GetList(parts: seq<FormPart>, field: string): (files: seq<FileRef>)
    ensures |files| <= |parts|
    ensures forall f :: f in files <==> FormPart(field, f) in parts
    decreases |parts|
  {
    if parts == [] then []
    else (if parts[0].field == field then [parts[0].file] else []) + GetList(parts[1..], field)
  }

  /** `field in request.files` holds exactly when `getlist` finds something. */
  lemma GetListEmpty(parts: seq<FormPart>, field: string)
    ensures GetList(parts, field) == [] <==> forall k :: 0 <= k < |parts| ==> parts[k].field != field
  {
    forall k | 0 <= k < |parts| && parts[k].field == field
      ensures GetList(parts, field) != []
    {
      assert parts[k].file in GetList(parts, field);
    }
  }

  /** A form whose parts are all sent under `field` gives back every file, in order. */
  lemma {:induction false} GetListAll(parts: seq<FormPart>, field: string)
    requires forall k :: 0 <= k < |parts| ==> parts[k].field == field
    ensures |GetList(parts, field)| == |parts|
    ensures forall k :: 0 <= k < |parts| ==> GetList(parts, field)[k] == parts[k].file
    decreases |parts|
  {
    if parts != [] {
      var rest := parts[1..];
      assert forall k :: 0 <= k < |rest| ==> rest[k] == parts[k + 1];
      GetListAll(rest, field);
    }
  }

  /** The position of the last `c` in `s`, or -1 (`str.rfind`). */
  function RFind(s: string, c: char): (i: int)
    ensures -1 <= i < |s|
    ensures i >= 0 ==> s[i] == c
    decreases |s|
  {
    if s == [] then -1
    else if s[|s| - 1] == c then |s| - 1
    else RFind(s[..|s| - 1], c)
  }

  /** No `c` follows the one `RFind` finds. */
  lemma {:induction false} RFindIsLast(s: string, c: char)
    ensures forall k :: RFind(s, c) < k < |s| ==> s[k] != c
    decreases |s|
  {
    if s != [] && s[|s| - 1] != c {
      var init := s[..|s| - 1];
      RFindIsLast(init, c);
      assert forall k :: 0 <= k < |init| ==> init[k] == s[k];
    }
  }

  /** Every character of `p[lo..hi]` is a dot. */
  predicate OnlyDots(p: string, lo: int, hi: int)
    requires 0 <= lo && hi <= |p|
    decreases hi - lo
  {
    lo >= hi || (p[lo] == '.' && OnlyDots(p, lo + 1, hi))
  }

  /**
   * `os.path.splitext(p)[1]` for POSIX paths: from the last dot of the last
   * path component to the end, unless everything before that dot in the
   * component is dots (a leading-dot name such as `.mp4` has no extension).
   */
  function Ext(p: string): (e: string)
    ensures e == "" || (e[0] == '.' && |e| <= |p| && e == p[|p| - |e|..])
  {
    var sep, dot := RFind(p, '/'), RFind(p, '.');
    if dot > sep && !OnlyDots(p, sep + 1, dot) then p[dot..] else ""
  }

  /** An extension holds one dot, its first character, and no separator. */
  lemma ExtHasOneDot(p: string)
    ensures forall k :: 1 <= k < |Ext(p)| ==> Ext(p)[k] != '.' && Ext(p)[k] != '/'
  {
    RFindIsLast(p, '/');
    RFindIsLast(p, '.');
  }

  /** `f"video{idx}{ext}"` with `ext = os.path.splitext(secured)[1] or '.mp4'`. */
  function FinalName(idx: nat, secured: string): (name: string)
    ensures |name| >= 7 && name[..5] == "video"
  {
    "video" + NatToString(idx) + (if Ext(secured) != "" then Ext(secured) else DefaultExt)
  }

  /** For positions 1..9: `video`, the digit, then an extension that starts with a dot. */
  lemma FinalNameShape(idx: nat, secured: string)
    requires 1 <= idx <= 9
    ensures var name, ext := FinalName(idx, secured), Ext(secured);
      && |name| >= 7 && name[..5] == "video" && name[5] == Digit(idx)
      && name[6..] == (if ext != "" then ext else DefaultExt)
      && name[6] == '.'
  {
    var ext := Ext(secured);
    var tail := if ext != "" then ext else DefaultExt;
    assert FinalName(idx, secured) == "video" + [Digit(idx)] + tail;
  }

  /** `os.path.join(UPLOAD_FOLDER, final_name)` */
  function SavePath(name: string): string {
    UploadFolderName + "/" + name
  }

  /** The names the endpoint stores the files under, in upload order, numbered from 1. */
  function StoredNames(files: seq<FileRef>, secure: string -> string): (names: seq<string>)
    ensures |names| == |files|
  {
    seq(|files|, k requires 0 <= k < |files| => FinalName(k + 1, secure(files[k].name)))
  }

  /** What `upload()` answers for a form, `secure` standing for `secure_filename`. */
  function UploadOutcome(parts: seq<FormPart>, secure: string -> string): (r: UploadResponse)
    ensures (forall k :: 0 <= k < |parts| ==> parts[k].field != VideosField) ==>
      r == UploadResponse(400, UploadError(NoFilesPartMessage))
    ensures GetList(parts, VideosField) != [] && |GetList(parts, VideosField)| != 4 ==>
      r == UploadResponse(400, UploadError(ExactlyFourFilesMessage))
    ensures |GetList(parts, VideosField)| == 4 && (exists k :: 0 <= k < 4 && GetList(parts, VideosField)[k].name == "") ==>
      r == UploadResponse(400, UploadError(NoFilenameMessage))
    ensures r.status == 200 <==>
      |GetList(parts, VideosField)| == 4 && forall k :: 0 <= k < 4 ==> GetList(parts, VideosField)[k].name != ""
    ensures r.status == 200 ==> r.body == UploadDone(UploadedMessage, StoredNames(GetList(parts, VideosField), secure))
  {
    GetListEmpty(parts, VideosField);
    var files := GetList(parts, VideosField);
    if files == [] then UploadResponse(400, UploadError(NoFilesPartMessage))
    else if |files| != 4 then UploadResponse(400, UploadError(ExactlyFourFilesMessage))
    else if exists k :: 0 <= k < 4 && files[k].name == "" then UploadResponse(400, UploadError(NoFilenameMessage))
    else UploadResponse(200, UploadDone(UploadedMessage, StoredNames(files, secure)))
  }

  /** How many files `upload()` writes before it answers: none on a bad count, else up to the first nameless one. */
  function SavedCount(files: seq<FileRef>): (n: nat)
    ensures n <= |files|
    ensures |files| == 4 ==> forall k :: 0 <= k < n ==> files[k].name != ""
    ensures |files| == 4 && n < |files| ==> files[n].name == ""
    ensures |files| != 4 ==> n == 0
  {
    if |files| != 4 then 0 else FirstNameless(files)
  }

  function FirstNameless(files: seq<FileRef>): (n: nat)
    ensures n <= |files|
    ensures forall k :: 0 <= k < n ==> files[k].name != ""
    ensures n < |files| ==> files[n].name == ""
    decreases |files|
  {
    if files == [] || files[0].name == "" then 0 else 1 + FirstNameless(files[1..])
  }

  /** The first nameless position is the one before which every file has a name. */
  lemma FirstNamelessIs(files: seq<FileRef>, n: nat)
    requires n <= |files| && forall k :: 0 <= k < n ==> files[k].name != ""
    requires n < |files| ==> files[n].name == ""
    ensures FirstNameless(files) == n
  {
  }

  /** A named file at the first-nameless bound moves the bound past it. */
  lemma NamedStep(files: seq<FileRef>, n: nat)
    requires n <= FirstNameless(files) && n < |files| && files[n].name != ""
    ensures n + 1 <= FirstNameless(files)
  {
  }

  /** A nameless file at the first-nameless bound is the first nameless file. */
  lemma NamelessAt(files: seq<FileRef>, n: nat)
    requires n <= FirstNameless(files) && n < |files| && files[n].name == ""
    ensures FirstNameless(files) == n
  {
  }

  /** The writes `upload()` makes for a file list, in order: the path and the contents. */
  function Writes(files: seq<FileRef>, secure: string -> string): (w: seq<(string, Blob)>)
    ensures |w| == |files|
  {
    seq(|files|, k requires 0 <= k < |files| => (SavePath(StoredNames(files, secure)[k]), files[k].blob))
  }

  /** The folder entries a run of writes leaves, a later write to a path replacing an earlier one. */
  function Saves(writes: seq<(string, Blob)>): map<string, Blob>
    decreases |writes|
  {
    if writes == [] then map[]
    else Saves(writes[..|writes| - 1])[writes[|writes| - 1].0 := writes[|writes| - 1].1]
  }

  /** Names for two different positions below ten differ in the digit. */
  lemma FinalNamesDiffer(i: nat, j: nat, a: string, b: string)
    requires 1 <= i <= 9 && 1 <= j <= 9 && i != j
    ensures FinalName(i, a) != FinalName(j, b)
  {
    FinalNameShape(i, a);
    FinalNameShape(j, b);
  }

  /** The four names of a successful upload are pairwise distinct, whatever the client sent. */
  lemma StoredNamesDistinct(files: seq<FileRef>, secure: string -> string)
    requires |files| <= 9
    ensures forall j, k :: 0 <= j < k < |files| ==> StoredNames(files, secure)[j] != StoredNames(files, secure)[k]
  {
    var names := StoredNames(files, secure);
    forall j, k | 0 <= j < k < |files|
      ensures names[j] != names[k]
    {
      StoredNameAt(files, secure, j);
      StoredNameAt(files, secure, k);
      FinalNamesDiffer(j + 1, k + 1, secure(files[j].name), secure(files[k].name));
    }
  }

  lemma StoredNameAt(files: seq<FileRef>, secure: string -> string, k: nat)
    requires k < |files|
    ensures StoredNames(files, secure)[k] == FinalName(k + 1, secure(files[k].name))
  {
  }

  /**
   * Stored name k is `video`, the digit k+1, then the extension of the secured
   * name or `.mp4`: nothing else of the client's file name survives.
   */
  lemma StoredNameShape(files: seq<FileRef>, secure: string -> string, k: nat)
    requires k < |files| <= 9
    ensures var name := StoredNames(files, secure)[k];
      var ext := Ext(secure(files[k].name));
      && name[..5] == "video" && name[5] == Digit(k + 1)
      && name[6..] == (if ext != "" then ext else DefaultExt)
  {
    StoredNameAt(files, secure, k);
    FinalNameShape(k + 1, secure(files[k].name));
  }

  /** Two forms whose files have the same secured extensions get the same names. */
  lemma StoredNamesOnlyByExtension(a: seq<FileRef>, b: seq<FileRef>, secure: string -> string)
    requires |a| == |b|
    requires forall k :: 0 <= k < |a| ==> Ext(secure(a[k].name)) == Ext(secure(b[k].name))
    ensures StoredNames(a, secure) == StoredNames(b, secure)
  {
  }

  /** One more write updates one entry. */
  lemma SavesStep(writes: seq<(string, Blob)>, w: (string, Blob))
    ensures Saves(writes + [w]) == Saves(writes)[w.0 := w.1]
  {
    assert (writes + [w])[..|writes|] == writes;
  }

  /** Updating an entry after merging equals merging the updated map. */
  lemma MergeUpdate(m: map<string, Blob>, s: map<string, Blob>, p: string, b: Blob)
    ensures (m + s)[p := b] == m + s[p := b]
  {
  }

  lemma {:induction false} SavesKeys(writes: seq<(string, Blob)>)
    ensures forall p :: p in Saves(writes) <==> exists k :: 0 <= k < |writes| && writes[k].0 == p
    decreases |writes|
  {
    if writes != [] {
      var front := writes[..|writes| - 1];
      SavesKeys(front);
      assert forall k :: 0 <= k < |front| ==> front[k] == writes[k];
    }
  }

  /** Writes to distinct paths give one entry each, holding what was written there. */
  lemma {:induction false} SavesDistinct(writes: seq<(string, Blob)>)
    requires forall j, k :: 0 <= j < k < |writes| ==> writes[j].0 != writes[k].0
    ensures |Saves(writes)| == |writes|
    ensures forall k :: 0 <= k < |writes| ==> writes[k].0 in Saves(writes) && Saves(writes)[writes[k].0] == writes[k].1
    decreases |writes|
  {
    if writes != [] {
      var front := writes[..|writes| - 1];
      assert forall k :: 0 <= k < |front| ==> front[k] == writes[k];
      SavesDistinct(front);
      SavesKeys(front);
    }
  }

  /** The writes of a four-file upload go to four different paths: no file overwrites another. */
  lemma WritesDistinct(files: seq<FileRef>, secure: string -> string)
    requires |files| <= 9
    ensures forall j, k :: 0 <= j < k < |files| ==> Writes(files, secure)[j].0 != Writes(files, secure)[k].0
    ensures |Saves(Writes(files, secure))| == |files|
  {
    var w, names := Writes(files, secure), StoredNames(files, secure);
    StoredNamesDistinct(files, secure);
    forall j, k | 0 <= j < k < |files|
      ensures w[j].0 != w[k].0
    {
      assert w[j].0[|UploadFolderName| + 1..] == names[j];
      assert w[k].0[|UploadFolderName| + 1..] == names[k];
    }
    SavesDistinct(w);
  }

  /** Some extensions, as `os.path.splitext` gives them. */
  lemma ExtExamples()
    ensures Ext("clip.mov") == ".mov"
    ensures Ext(".mp4") == ""
    ensures Ext("video") == ""
  {
    var a, b, c := "clip.mov", ".mp4", "video";
    RFindIsLast(a, '/');
    RFindIsLast(a, '.');
    RFindIsLast(b, '/');
    RFindIsLast(b, '.');
    RFindIsLast(c, '.');
    assert forall k :: 0 <= k < |a| ==> a[k] != '/';
    assert a[4] == '.' && forall k :: 4 < k < |a| ==> a[k] != '.';
    assert a[0] != '.' && a[4..] == ".mov";
    assert forall k :: 0 <= k < |b| ==> b[k] != '/';
    assert b[0] == '.' && forall k :: 0 < k < |b| ==> b[k] != '.';
    assert forall k :: 0 <= k < |c| ==> c[k] != '.';
  }

  lemma PrefixStep<T>(s: seq<T>, i: nat)
    requires i < |s|
    ensures s[..i + 1] == s[..i] + [s[i]]
  {
  }

  /** One turn of the save loop: the next name and the next write extend the runs so far. */
  lemma SaveStep(files: seq<FileRef>, secure: string -> string, i: nat, base: map<string, Blob>,
                 writes: seq<(string, Blob)>)
    requires i < |files| && i <= FirstNameless(files) && files[i].name != ""
    requires writes == Writes(files, secure)[..i]
    ensures var name := FinalName(i + 1, secure(files[i].name));
      var w := (SavePath(name), files[i].blob);
      && i + 1 <= FirstNameless(files)
      && StoredNames(files, secure)[..i + 1] == StoredNames(files, secure)[..i] + [name]
      && Writes(files, secure)[..i + 1] == writes + [w]
      && base + Saves(writes + [w]) == (base + Saves(writes))[w.0 := w.1]
  {
    var name := FinalName(i + 1, secure(files[i].name));
    var w := (SavePath(name), files[i].blob);
    NamedStep(files, i);
    StoredNameAt(files, secure, i);
    PrefixStep(StoredNames(files, secure), i);
    PrefixStep(Writes(files, secure), i);
    SavesStep(writes, w);
    MergeUpdate(base, Saves(writes), w.0, w.1);
  }

  /** The folder the endpoint saves into: path to contents. */
  class UploadFolder {
    var stored: map<string, Blob>

    constructor ()
      ensures stored == map[]
    {
      stored := map[];
    }

    /**
     * `upload()`: it answers as `UploadOutcome` says; before answering it has
     * written the files it got to before the first nameless one, each under
     * its final name, files written earlier under other names staying.
     */
    method Upload(parts: seq<FormPart>, secure: string -> string) returns (resp: UploadResponse)
      modifies this
      ensures resp == UploadOutcome(parts, secure)
      ensures var files := GetList(parts, VideosField);
        stored == old(stored) + Saves(Writes(files, secure)[..SavedCount(files)])
    {
      GetListEmpty(parts, VideosField);
      var files := GetList(parts, VideosField);
      if |files| != 4 {
        assert Writes(files, secure)[..SavedCount(files)] == [];
        assert old(stored) + Saves([]) == old(stored);
        if |files| == 0 {
          return UploadResponse(400, UploadError(NoFilesPartMessage));
        }
        return UploadResponse(400, UploadError(ExactlyFourFilesMessage));
      }
      var savedFiles, complete := SaveNamed(files, secure);
      if !complete {
        return UploadResponse(400, UploadError(NoFilenameMessage));
      }
      return UploadResponse(200, UploadDone(UploadedMessage, savedFiles));
    }

    /**
     * The loop of `upload()` over four files: each file, up to the first
     * nameless one, is written under its final name. `complete` says the loop
     * ran to its end, and then `saved` lists every final name in order.
     */
    method SaveNamed(files: seq<FileRef>, secure: string -> string) returns (saved: seq<string>, complete: bool)
      requires |files| == 4
      modifies this
      ensures complete <==> forall k :: 0 <= k < |files| ==> files[k].name != ""
      ensures complete ==> saved == StoredNames(files, secure)
      ensures stored == old(stored) + Saves(Writes(files, secure)[..FirstNameless(files)])
    {
      ghost var names, allWrites := StoredNames(files, secure), Writes(files, secure);
      saved := [];
      ghost var writes: seq<(string, Blob)> := [];
      var idx := 1;
      while idx <= |files|
        invariant 1 <= idx <= |files| + 1
        invariant idx - 1 <= FirstNameless(files)
        invariant saved == names[..idx - 1]
        invariant writes == allWrites[..idx - 1]
        invariant stored == old(stored) + Saves(writes)
      {
        var file := files[idx - 1];
        if file.name == "" {
          NamelessAt(files, idx - 1);
          return saved, false;
        }
        var finalName := FinalName(idx, secure(file.name));
        var savePath := SavePath(finalName);
        SaveStep(files, secure, idx - 1, old(stored), writes);
        stored := stored[savePath := file.blob];
        writes := writes + [(savePath, file.blob)];
        saved := saved + [finalName];
        idx := idx + 1;
      }
      assert allWrites[..4] == allWrites;
      return saved, true;
    }
  }
}
