// The two halves put together: the client's requests as the Flask endpoints
// answer them. The upload reply is the JSON body `jsonify` writes, and the
// process request is what the client builds from it.
module Workflow {
  import opened Strings
  import opened Wire
  import opened ClientSubmit
  import opened ClientResults
  import opened ServerUpload
  import opened ServerProcess

  /** File names as JSON strings. */
  function JsonNames(names: seq<string>): (js: seq<Json>)
    ensures |js| == |names| && forall k :: 0 <= k < |names| ==> js[k] == JStr(names[k])
  {
    seq(|names|, k requires 0 <= k < |names| => JStr(names[k]))
  }

  /** Names sent as JSON strings are keys `jsonify` can sort, so the client's batch is answered. */
  lemma JsonNamesSortable(names: seq<string>)
    ensures SortableKeys(JsonNames(names))
  {
    TextNamesSortable(JsonNames(names));
  }

  /** Distinct names stay distinct as JSON strings. */
  lemma JsonNamesDistinct(names: seq<string>)
    requires forall j, k :: 0 <= j < k < |names| ==> names[j] != names[k]
    ensures Distinct(JsonNames(names))
  {
  }

  /** The `/upload` response as the client's fetch sees it: `ok` for a 2xx status, the jsonify body. */
  function UploadReply(resp: UploadResponse): (r: Reply)
    ensures r.Reply? && (r.ok <==> 200 <= resp.status < 300)
    ensures resp.body.UploadError? ==> Get(r.body, "error") == Some(JStr(resp.body.error))
    ensures resp.body.UploadDone? ==> Get(r.body, "files") == Some(JArray(JsonNames(resp.body.files)))
  {
    var ok := 200 <= resp.status < 300;
    match resp.body
    case UploadError(e) => Reply(ok, [("error", JStr(e))])
    case UploadDone(m, names) => Reply(ok, [("files", JArray(JsonNames(names))), ("message", JStr(m))])
  }

  /** The client's `/upload` endpoint: the folder's answer for a form, `secure` standing for `secure_filename`. */
  function UploadEndpoint(secure: string -> string): seq<FormPart> -> Reply {
    form => UploadReply(UploadOutcome(form, secure))
  }

  /** The files the server gets from the client's form: the renamed ones, in order. */
  lemma ClientFormReceived(timestamp: nat, files: seq<FileRef>)
    ensures var received := GetList(UploadForm(timestamp, files), VideosField);
      && |received| == |files|
      && forall k :: 0 <= k < |files| ==>
           received[k] == FileRef(RenamedName(timestamp, k, files[k].name), files[k].mimeType, files[k].blob)
  {
    GetListAll(UploadForm(timestamp, files), VideosField);
  }

  /**
   * Four files from the client always pass every check of `/upload`: the
   * renamed names are never empty. The reply lists the server's names.
   */
  lemma ClientUploadAccepted(timestamp: nat, files: seq<FileRef>, secure: string -> string)
    requires |files| == 4
    ensures var form := UploadForm(timestamp, files);
      && UploadOutcome(form, secure) ==
           UploadResponse(200, UploadDone(UploadedMessage, StoredNames(GetList(form, VideosField), secure)))
  {
    var form := UploadForm(timestamp, files);
    ClientFormReceived(timestamp, files);
    var received := GetList(form, VideosField);
    forall k | 0 <= k < 4
      ensures received[k].name != ""
    {
      assert |NatToString(timestamp)| >= 1;
      assert |received[k].name| >= 1;
    }
  }

  /**
   * The client's renamed names never reach the folder: stored name k starts
   * with `video`, a renamed name starts with a digit of the timestamp.
   */
  lemma ServerNamesReplaceClientNames(timestamp: nat, files: seq<FileRef>, secure: string -> string)
    requires |files| == 4
    ensures var received := GetList(UploadForm(timestamp, files), VideosField);
      forall j, k :: 0 <= j < |received| && 0 <= k < |received| ==> StoredNames(received, secure)[j] != received[k].name
  {
    var received := GetList(UploadForm(timestamp, files), VideosField);
    ClientFormReceived(timestamp, files);
    var names := StoredNames(received, secure);
    forall j, k | 0 <= j < |received| && 0 <= k < |received|
      ensures names[j] != received[k].name
    {
      StoredNameAt(received, secure, j);
      FinalNameNotRenamed(j + 1, secure(received[j].name), timestamp, k, files[k].name);
    }
  }

  /** A name `video<d><ext>` is never a client name `<timestamp>_<i>_<name>`: they differ in the first character. */
  lemma FinalNameNotRenamed(idx: nat, secured: string, timestamp: nat, index: nat, name: string)
    requires 1 <= idx <= 9
    ensures FinalName(idx, secured) != RenamedName(timestamp, index, name)
  {
    FinalNameShape(idx, secured);
    var server, client := FinalName(idx, secured), RenamedName(timestamp, index, name);
    assert server[0] == server[..5][0] == 'v';
    assert client[0] == NatToString(timestamp)[0];
    assert IsDigit(client[0]);
  }

  /**
   * The process request the client makes after a successful upload is
   * accepted by `/process`: the file names are the server's stored names and
   * each parameter is the client's coerced value, none of the defaults.
   */
  lemma ClientProcessRequestAccepted(timestamp: nat, files: seq<FileRef>, inputs: map<string, InputValue>,
                                     coerce: InputValue -> Json, secure: string -> string)
    requires |files| == 4 && AllPresent(inputs)
    ensures var form := UploadForm(timestamp, files);
      var names := StoredNames(GetList(form, VideosField), secure);
      var body := ProcessBody(UploadEndpoint(secure)(form).body, inputs, coerce);
      Validate(Parsed(JObject(body))) ==
        Accepted(JsonNames(names), CoercedParams(inputs, coerce))
  {
    var form := UploadForm(timestamp, files);
    var names := StoredNames(GetList(form, VideosField), secure);
    ClientUploadAccepted(timestamp, files, secure);
    var reply := UploadEndpoint(secure)(form);
    assert reply == UploadReply(UploadResponse(200, UploadDone(UploadedMessage, names)));
    ProcessBodyAccepted(reply.body, inputs, coerce, JsonNames(names));
  }

  /**
   * Any upload reply whose `files` is a list of four names gives a process
   * request that `/process` accepts with those names and the coerced parameters.
   */
  lemma ProcessBodyAccepted(uploadBody: seq<(string, Json)>, inputs: map<string, InputValue>,
                            coerce: InputValue -> Json, fileNames: seq<Json>)
    requires AllPresent(inputs) && |fileNames| == 4
    requires Get(uploadBody, "files") == Some(JArray(fileNames))
    ensures Validate(Parsed(JObject(ProcessBody(uploadBody, inputs, coerce)))) ==
      Accepted(fileNames, CoercedParams(inputs, coerce))
  {
    var body := ProcessBody(uploadBody, inputs, coerce);
    ProcessBodyFields(uploadBody, inputs, coerce);
    forall k | 0 <= k < |RequiredKeys|
      ensures HasKey(body, RequiredKeys[k])
    {
      if k > 0 {
        assert RequiredKeys[k] == RequiredInputs[k - 1];
      }
    }
    FileListCheck(body);
    DefaultsUnreachable(Parsed(JObject(body)));
    assert RequiredInputs[0] == "no_of_lanes" && RequiredInputs[1] == "platoon_weight";
    assert RequiredInputs[2] == "incoming_distance" && RequiredInputs[3] == "average_speed";
  }

  /** The parameters as the client sends them, each field coerced by `Number`. */
  function CoercedParams(inputs: map<string, InputValue>, coerce: InputValue -> Json): Params
    requires AllPresent(inputs)
  {
    assert Present(inputs, RequiredInputs[0]) && Present(inputs, RequiredInputs[1]);
    assert Present(inputs, RequiredInputs[2]) && Present(inputs, RequiredInputs[3]);
    Params(coerce(inputs["no_of_lanes"]), coerce(inputs["platoon_weight"]),
           coerce(inputs["incoming_distance"]), coerce(inputs["average_speed"]))
  }

  /**
   * With those names `/process` never crashes on a key and keeps four
   * entries: the stored names are strings, pairwise distinct.
   */
  lemma ClientBatchHasFourEntries(timestamp: nat, files: seq<FileRef>, secure: string -> string,
                                  params: Params, analyze: (Json, Params) -> Outcome)
    requires |files| == 4
    ensures var fileNames := JsonNames(StoredNames(GetList(UploadForm(timestamp, files), VideosField), secure));
      && (forall k :: 0 <= k < |fileNames| ==> Hashable(fileNames[k]))
      && |ResultMap(fileNames, params, analyze)| == 4
  {
    var received := GetList(UploadForm(timestamp, files), VideosField);
    assert |received| == 4 by { ClientFormReceived(timestamp, files); }
    var names := StoredNames(received, secure);
    var fileNames := JsonNames(names);
    StoredNamesDistinct(received, secure);
    JsonNamesDistinct(names);
    DistinctNamesFourEntries(fileNames, params, analyze);
  }

  /**
   * A failed analysis is shown as an error card exactly when its message is
   * not empty: the server writes `str(e)` and the client tests the text's
   * truthiness. An empty message gives a done card whose metrics are all
   * undefined and whose safety penalty falls back to 0.
   */
  lemma FailedAnalysisCard(fileName: string, message: string)
    ensures var card := CardOf(fileName, EntryOf(Raised(message)));
      && card.Some? && card.value.fileName == fileName
      && (card.value.ErrorCard? <==> message != "")
      && (card.value.ErrorCard? ==> card.value.message == JStr(message))
      && (message == "" ==> card.value == DoneCard(fileName, Undefined, Undefined, JNum(0.0), Undefined, Undefined))
  {
    var entry := EntryOf(Raised(message));
    assert entry.members == [("error", JStr(message))];
    assert entry.members[..0] == [];
    assert Property(entry, "error") == Defined(JStr(message));
  }

  /** A failed analysis adds nothing to the Batch CPS figure. */
  lemma FailedAnalysisScoresNothing(values: seq<Json>, message: string)
    ensures BatchScore(values + [EntryOf(Raised(message))]) == BatchScore(values)
  {
    var entry := EntryOf(Raised(message));
    assert entry.members == [("error", JStr(message))];
    assert !HasKey(entry.members, "cps");
    ValueWithoutCpsAddsNothing(values, entry);
  }
}
