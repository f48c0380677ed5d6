// The upload component's state and its event handlers. Each handler runs to
// completion; the two awaited requests of a submission are the `upload` and
// `process` functions it is given, and what happens on the way is recorded
// in the ghost `trace`.
module ClientComponent {
  import opened Wire
  import opened ClientFiles
  import opened ClientSubmit

  class VideoUpload {
    var files: seq<FileRef>
    var previews: seq<Preview>
    var inputs: map<string, InputValue>
    var loading: bool
    var processing: bool
    var results: Option<seq<(string, Json)>>
    var error: string
    /** How many object URLs have been minted; the next one gets this handle. */
    var nextUrl: nat
    /** Busy-flag setter calls and requests issued, in program order, oldest first. */
    ghost var trace: seq<Event>

    /** At most four files, previews aligned with them, preview URLs distinct and already minted. */
    predicate Valid()
      reads this
    {
      |files| <= MaxFiles && Aligned(files, previews) && UrlsDistinct(previews) && UrlsBelow(previews, nextUrl)
    }

    /** `disabled={loading || processing}` is false. */
    predicate TriggerEnabled()
      reads this
    {
      !loading && !processing
    }

    constructor ()
      ensures Valid() && TriggerEnabled()
      ensures files == [] && previews == [] && inputs == InitialInputs
      ensures results.None? && error == "" && nextUrl == 0 && trace == []
    {
      files := [];
      previews := [];
      inputs := InitialInputs;
      loading := false;
      processing := false;
      results := None;
      error := "";
      nextUrl := 0;
      trace := [];
    }

    /**
     * A drop or a pick of candidate files. With no video among them only the
     * error changes; otherwise the videos are appended, the list is cut to
     * four, fresh previews replace the old ones and the results are cleared.
     */
    method HandleNewFiles(candidates: seq<Option<FileRef>>)
      requires Valid()
      modifies this
      ensures Valid()
      ensures VideoFiles(candidates) == [] ==>
        error == NotVideoMessage && files == old(files) && previews == old(previews) &&
        results == old(results) && nextUrl == old(nextUrl)
      ensures VideoFiles(candidates) != [] ==>
        && files == Combine(old(files), VideoFiles(candidates))
        && previews == FreshPreviews(files, old(nextUrl))
        && nextUrl == old(nextUrl) + |files|
        && results.None? && error == ""
      ensures forall j, k :: 0 <= j < |old(previews)| && 0 <= k < |previews| && previews != old(previews) ==>
        old(previews)[j].url != previews[k].url
      ensures inputs == old(inputs) && loading == old(loading) && processing == old(processing) && trace == old(trace)
    {
      error := "";
      var videoFiles := VideoFiles(candidates);
      if |videoFiles| == 0 {
        error := NotVideoMessage;
        return;
      }
      var combined := Combine(files, videoFiles);
      // The previous object URLs are revoked here; revocation is not modelled.
      var newPreviews := FreshPreviews(combined, nextUrl);
      nextUrl := nextUrl + |combined|;
      files := combined;
      previews := newPreviews;
      results := None;
    }

    /**
     * The Remove button of the preview at `index`: that position leaves both
     * lists, the survivors keep their order and URLs and get ids for their new
     * positions, and the results are cleared. Out of range, the lists stay.
     */
    method RemoveFile(index: nat)
      requires Valid()
      modifies this
      ensures Valid()
      ensures index < |old(files)| ==>
        && files == RemoveAt(old(files), index)
        && |previews| == |files|
        && forall k :: 0 <= k < |previews| ==>
             previews[k].url == old(previews)[if k < index then k else k + 1].url
      ensures index >= |old(files)| ==> files == old(files) && previews == old(previews)
      ensures results.None?
      ensures error == old(error) && inputs == old(inputs) && nextUrl == old(nextUrl)
      ensures loading == old(loading) && processing == old(processing) && trace == old(trace)
    {
      var copyFiles := files;
      var copyPreviews := previews;
      if index < |copyPreviews| {
        // The removed preview's object URL is revoked here; revocation is not modelled.
        copyPreviews := RemoveAt(copyPreviews, index);
      }
      if index < |copyFiles| {
        copyFiles := RemoveAt(copyFiles, index);
      }
      if index < |files| {
        RemoveKeepsAlignment(files, previews, index);
        RemoveKeepsUrls(previews, index, nextUrl);
      } else {
        RenumberedAligned(files, previews);
      }
      files := copyFiles;
      previews := Renumbered(copyPreviews);
      results := None;
    }

    /** Typing into the parameter field `name`: that key now holds the text, every other key is kept. */
    method HandleInputChange(name: string, value: string)
      requires Valid()
      modifies this
      ensures Valid()
      ensures inputs == old(inputs)[name := TextInput(value)]
      ensures Present(inputs, name) <==> value != ""
      ensures forall key :: key != name ==> (Present(inputs, key) <==> Present(old(inputs), key))
      ensures files == old(files) && previews == old(previews) && results == old(results) && error == old(error)
      ensures nextUrl == old(nextUrl) && loading == old(loading) && processing == old(processing) && trace == old(trace)
    {
      inputs := inputs[name := TextInput(value)];
    }

    /** The Reset button: no files, no previews, no results, no error; the parameters are kept. */
    method Reset()
      requires Valid()
      modifies this
      ensures Valid()
      ensures files == [] && previews == [] && results.None? && error == ""
      ensures inputs == old(inputs) && nextUrl == old(nextUrl)
      ensures loading == old(loading) && processing == old(processing) && trace == old(trace)
    {
      // The previews' object URLs are revoked here; revocation is not modelled.
      files := [];
      previews := [];
      results := None;
      error := "";
    }

    /**
     * The Upload & Analyze button. It ends in the state the submission
     * function describes: the same error text and results, the same events
     * appended to the trace, the file set and parameters untouched and the
     * button enabled again.
     */
    method HandleUploadAndProcess(timestamp: nat, coerce: InputValue -> Json,
                                  upload: seq<FormPart> -> Reply, process: seq<(string, Json)> -> Reply)
      requires Valid() && TriggerEnabled()
      modifies this
      ensures Valid() && TriggerEnabled()
      ensures var run := Submit(old(files), old(inputs), timestamp, coerce, upload, process);
        error == run.error && results == run.results && trace == old(trace) + run.events
      ensures files == old(files) && previews == old(previews) && inputs == old(inputs) && nextUrl == old(nextUrl)
    {
      error := "";
      results := None;
      if |files| != 4 {
        error := ExactlyFourMessage;
        return;
      }
      var i := 0;
      while i < |RequiredInputs|
        invariant 0 <= i <= |RequiredInputs|
        invariant forall k :: 0 <= k < i ==> Present(inputs, RequiredInputs[k])
        invariant error == "" && results.None? && trace == old(trace)
      {
        var key := RequiredInputs[i];
        if key !in inputs || inputs[key] == TextInput("") || inputs[key] == NullInput {
          error := FillAllMessage;
          return;
        }
        i := i + 1;
      }
      assert Preflight(files, inputs).None?;
      Request(timestamp, coerce, upload, process);
    }

    /**
     * The try/catch/finally of the submission, once the checks have passed:
     * upload, then process, each failure caught into the error text, and both
     * busy flags lowered at the end.
     */
    method Request(timestamp: nat, coerce: InputValue -> Json,
                   upload: seq<FormPart> -> Reply, process: seq<(string, Json)> -> Reply)
      requires TriggerEnabled() && |files| == 4 && AllPresent(inputs)
      requires error == "" && results.None?
      modifies this`loading, this`processing, this`error, this`results, this`trace
      ensures TriggerEnabled()
      ensures var run := Exchange(UploadForm(timestamp, old(files)), old(inputs), coerce, upload, process);
        error == run.error && results == run.results && trace == old(trace) + run.events
      ensures files == old(files) && previews == old(previews) && inputs == old(inputs) && nextUrl == old(nextUrl)
    {
      ghost var run := Exchange(UploadForm(timestamp, files), inputs, coerce, upload, process);
      loading := true;
      trace := trace + [Flags(loading, processing)];
      // try
      var failure: Option<string> := None;
      var form := UploadForm(timestamp, files);
      trace := trace + [Sent(UploadRequest(form))];
      assert trace == old(trace) + [Flags(true, false), Sent(UploadRequest(form))];
      var uploadReply := upload(form);
      if uploadReply.Thrown? {
        failure := Some(uploadReply.message);
      } else if !uploadReply.ok {
        failure := Some(ReplyError(uploadReply.body, UploadFailedMessage));
      } else {
        ghost var body := ProcessBody(uploadReply.body, inputs, coerce);
        failure := ProcessStage(uploadReply.body, coerce, process);
        assert trace == old(trace) + [Flags(true, false), Sent(UploadRequest(form)), Flags(true, true), Sent(ProcessRequest(body))];
      }
      // catch
      if failure.Some? {
        error := Caught(failure.value);
      }
      // finally: the two setter calls are recorded as one event
      loading := false;
      processing := false;
      trace := trace + [Flags(loading, processing)];
    }

    /**
     * The second stage of the try block, after a successful upload: raise the
     * processing flag, send the process request, and keep the reply or the
     * failure's message.
     */
    method ProcessStage(uploadBody: seq<(string, Json)>, coerce: InputValue -> Json,
                        process: seq<(string, Json)> -> Reply) returns (failure: Option<string>)
      requires loading && !processing && AllPresent(inputs) && results.None?
      modifies this`processing, this`results, this`trace
      ensures var body := ProcessBody(uploadBody, old(inputs), coerce);
        && trace == old(trace) + [Flags(true, true), Sent(ProcessRequest(body))]
        && match process(body)
           case Thrown(m) => failure == Some(m) && results.None?
           case Reply(ok, reply) =>
             if ok then failure.None? && results == Some(reply)
             else failure == Some(ReplyError(reply, ProcessingFailedMessage)) && results.None?
      ensures loading && processing && error == old(error)
      ensures files == old(files) && previews == old(previews) && inputs == old(inputs) && nextUrl == old(nextUrl)
    {
      processing := true;
      trace := trace + [Flags(loading, processing)];
      var body := ProcessBody(uploadBody, inputs, coerce);
      trace := trace + [Sent(ProcessRequest(body))];
      var processReply := process(body);
      failure := None;
      if processReply.Thrown? {
        failure := Some(processReply.message);
      } else if !processReply.ok {
        failure := Some(ReplyError(processReply.body, ProcessingFailedMessage));
      } else {
        results := Some(processReply.body);
      }
    }
  }
}
