// The submission part of the upload component: the parameter form, the
// pre-flight checks, the client-side renaming and the two-stage
// upload-then-process sequence with its error messages and busy flags.
module ClientSubmit {
  import opened Strings
  import opened Wire

  const ExactlyFourMessage := "Please select exactly 4 videos."
  const FillAllMessage := "Please fill all required parameters."
  const UploadFailedMessage := "Upload failed"
  const ProcessingFailedMessage := "Processing failed"
  const UnknownErrorMessage := "Unknown error"
  const UploadField := "videos"
  const RequiredInputs: seq<string> := ["no_of_lanes", "platoon_weight", "incoming_distance", "average_speed"]

  /** A form field's value: the text of an input, or a value set some other way. */
  datatype InputValue = NullInput | TextInput(text: string) | NumberInput(x: real)

  /** The initial form: every parameter is the empty string. */
  const InitialInputs: map<string, InputValue> :=
    map["no_of_lanes" := TextInput(""), "platoon_weight" := TextInput(""),
        "incoming_distance" := TextInput(""), "average_speed" := TextInput("")]

  /** Not `''`, not `null` and not `undefined` (an absent key). */
  predicate Present(inputs: map<string, InputValue>, key: string) {
    key in inputs && inputs[key] != NullInput && inputs[key] != TextInput("")
  }

  predicate AllPresent(inputs: map<string, InputValue>) {
    forall k :: 0 <= k < |RequiredInputs| ==> Present(inputs, RequiredInputs[k])
  }

  /** Zero, as a number or as the text "0", is a value that is there. */
  lemma ZeroIsPresent(inputs: map<string, InputValue>, key: string)
    requires key in inputs && inputs[key] in {NumberInput(0.0), TextInput("0")}
    ensures Present(inputs, key)
  {
  }

  /** The message the submission stops with before any request, if it does. */
  function Preflight(files: seq<FileRef>, inputs: map<string, InputValue>): (r: Option<string>)
    ensures r.None? <==> |files| == 4 && AllPresent(inputs)
    ensures |files| != 4 ==> r == Some(ExactlyFourMessage)
    ensures |files| == 4 && !AllPresent(inputs) ==> r == Some(FillAllMessage)
  {
    if |files| != 4 then Some(ExactlyFourMessage)
    else if !AllPresent(inputs) then Some(FillAllMessage)
    else None
  }

  predicate IsSafeChar(c: char) {
    'a' <= c <= 'z' || 'A' <= c <= 'Z' || '0' <= c <= '9' || c == '.' || c == '-' || c == '_'
  }

  /** `name.replace(/[^a-zA-Z0-9.\-_]/g, '_')` */
  function SafeName(name: string): (r: string)
    ensures |r| == |name|
    ensures forall k :: 0 <= k < |r| ==> IsSafeChar(r[k])
    ensures forall k :: 0 <= k < |r| && IsSafeChar(name[k]) ==> r[k] == name[k]
  {
    seq(|name|, k requires 0 <= k < |name| => if IsSafeChar(name[k]) then name[k] else '_')
  }

  /** Sanitising twice is sanitising once. */
  lemma SafeNameIdempotent(name: string)
    ensures SafeName(SafeName(name)) == SafeName(name)
  {
  }

  /** A name made only of allowed characters is left as it is. */
  lemma SafeNameKeepsSafe(name: string)
    requires forall k :: 0 <= k < |name| ==> IsSafeChar(name[k])
    ensures SafeName(name) == name
  {
  }

  /** `${timestamp}_${index}_${safeName}` */
  function RenamedName(timestamp: nat, index: nat, name: string): (r: string)
    ensures |r| == |NatToString(timestamp)| + |NatToString(index)| + 2 + |name|
    ensures IsDigit(r[0]) && r[|NatToString(timestamp)|] == '_'
  {
    NatToString(timestamp) + "_" + NatToString(index) + "_" + SafeName(name)
  }

  /** The renamed Files, each keeping its type and contents, appended to the form under `videos`. */
  function UploadForm(timestamp: nat, files: seq<FileRef>): (form: seq<FormPart>)
    ensures |form| == |files|
    ensures forall k :: 0 <= k < |form| ==>
      form[k] == FormPart(UploadField, FileRef(RenamedName(timestamp, k, files[k].name), files[k].mimeType, files[k].blob))
  {
    seq(|files|, k requires 0 <= k < |files| =>
      FormPart(UploadField, FileRef(RenamedName(timestamp, k, files[k].name), files[k].mimeType, files[k].blob)))
  }

  /**
   * A renamed name determines the timestamp, the position (below ten) and the
   * sanitised original name it was made from.
   */
  lemma RenamedNameInjective(t1: nat, i1: nat, n1: string, t2: nat, i2: nat, n2: string)
    requires i1 < 10 && i2 < 10
    requires RenamedName(t1, i1, n1) == RenamedName(t2, i2, n2)
    ensures t1 == t2 && i1 == i2 && SafeName(n1) == SafeName(n2)
  {
    var p1, p2 := NatToString(t1), NatToString(t2);
    var s := RenamedName(t1, i1, n1);
    assert s == p1 + "_" + [Digit(i1)] + "_" + SafeName(n1);
    assert s == p2 + "_" + [Digit(i2)] + "_" + SafeName(n2);
    assert s[|p1|] == '_' && s[|p2|] == '_';
    assert forall k :: 0 <= k < |p1| ==> IsDigit(s[k]);
    assert forall k :: 0 <= k < |p2| ==> IsDigit(s[k]);
    assert |p1| == |p2|;
    assert p1 == s[..|p1|] == p2;
    NatToStringInjective(t1, t2);
    assert Digit(i1) == s[|p1| + 1] == Digit(i2);
    assert SafeName(n1) == s[|p1| + 3..] == SafeName(n2);
  }

  /** The four renamed files of one submission have pairwise distinct names. */
  lemma RenamedNamesDistinct(timestamp: nat, files: seq<FileRef>)
    requires |files| <= 10
    ensures forall j, k :: 0 <= j < k < |files| ==>
      UploadForm(timestamp, files)[j].file.name != UploadForm(timestamp, files)[k].file.name
  {
    var form := UploadForm(timestamp, files);
    forall j, k | 0 <= j < k < |files|
      ensures form[j].file.name != form[k].file.name
    {
      if form[j].file.name == form[k].file.name {
        RenamedNameInjective(timestamp, j, files[j].name, timestamp, k, files[k].name);
      }
    }
  }

  /** A network request the client issues. */
  datatype Request = UploadRequest(form: seq<FormPart>) | ProcessRequest(body: seq<(string, Json)>)

  /**
   * What a submission does, in program order: a busy-flag setter call (the
   * `finally` block's two calls are one event), or a request.
   */
  datatype Event = Flags(loading: bool, processing: bool) | Sent(request: Request)

  /** The end state of one submission: the error text, the results, and what happened. */
  datatype Run = Run(error: string, results: Option<seq<(string, Json)>>, events: seq<Event>)

  /** The message of `new Error(json.error || fallback)`; a non-string `error` counts as absent. */
  function ReplyError(body: seq<(string, Json)>, fallback: string): (m: string)
    requires fallback != ""
    ensures m != ""
    ensures Get(body, "error") == Some(JStr(m)) || m == fallback
    ensures (exists s :: Get(body, "error") == Some(JStr(s)) && s != "") ==> Get(body, "error") == Some(JStr(m))
  {
    match Get(body, "error")
    case Some(JStr(s)) => if s != "" then s else fallback
    case _ => fallback
  }

  /** `err.message || 'Unknown error'` */
  function Caught(message: string): (m: string)
    ensures m != ""
    ensures message != "" ==> m == message
  {
    if message != "" then message else UnknownErrorMessage
  }

  /** The four parameter names differ in their first character, and none is `files`. */
  lemma RequiredInputsDistinct()
    ensures forall i, j :: 0 <= i < j < |RequiredInputs| ==> RequiredInputs[i] != RequiredInputs[j]
    ensures forall i :: 0 <= i < |RequiredInputs| ==> RequiredInputs[i] != "files"
  {
    assert RequiredInputs[0][0] == 'n' && RequiredInputs[1][0] == 'p';
    assert RequiredInputs[2][0] == 'i' && RequiredInputs[3][0] == 'a';
  }

  /** The parameter members of the process request, `Number(...)` applied to each field. */
  function ParamMembers(inputs: map<string, InputValue>, coerce: InputValue -> Json): (ms: seq<(string, Json)>)
    requires AllPresent(inputs)
    ensures |ms| == |RequiredInputs|
    ensures forall k :: 0 <= k < |ms| ==> ms[k] == (RequiredInputs[k], coerce(inputs[RequiredInputs[k]]))
  {
    seq(|RequiredInputs|, k requires 0 <= k < |RequiredInputs| => (RequiredInputs[k], coerce(inputs[RequiredInputs[k]])))
  }

  /**
   * The JSON body of the process request: the `files` the upload returned
   * (left out by JSON.stringify when undefined) and the four coerced parameters.
   */
  function ProcessBody(uploadBody: seq<(string, Json)>, inputs: map<string, InputValue>, coerce: InputValue -> Json)
    : (body: seq<(string, Json)>)
    requires AllPresent(inputs)
  {
    var head := match Get(uploadBody, "files") case Some(f) => [("files", f)] case None => [];
    head + ParamMembers(inputs, coerce)
  }

  /** The process request carries exactly the `files` value of the upload reply and the coerced parameters. */
  lemma ProcessBodyFields(uploadBody: seq<(string, Json)>, inputs: map<string, InputValue>, coerce: InputValue -> Json)
    requires AllPresent(inputs)
    ensures Get(ProcessBody(uploadBody, inputs, coerce), "files") == Get(uploadBody, "files")
    ensures forall k :: 0 <= k < |RequiredInputs| ==>
      Get(ProcessBody(uploadBody, inputs, coerce), RequiredInputs[k]) == Some(coerce(inputs[RequiredInputs[k]]))
    ensures |ProcessBody(uploadBody, inputs, coerce)| == |RequiredInputs| + (if HasKey(uploadBody, "files") then 1 else 0)
  {
    var params := ParamMembers(inputs, coerce);
    var head := match Get(uploadBody, "files") case Some(f) => [("files", f)] case None => [];
    RequiredInputsDistinct();
    GetConcat(head, params, "files");
    forall k | 0 <= k < |RequiredInputs|
      ensures Get(head + params, RequiredInputs[k]) == Some(coerce(inputs[RequiredInputs[k]]))
    {
      GetConcat(head, params, RequiredInputs[k]);
      GetUnrepeated(params, k);
    }
  }

  /** handleUploadAndProcess, run against the two endpoints `upload` and `process`. */
  function Submit(files: seq<FileRef>, inputs: map<string, InputValue>, timestamp: nat, coerce: InputValue -> Json,
                  upload: seq<FormPart> -> Reply, process: seq<(string, Json)> -> Reply): (r: Run)
    ensures r.error == "" <==> r.results.Some?
    ensures r.events == [] <==> Preflight(files, inputs).Some?
  {
    match Preflight(files, inputs)
    case Some(message) => Run(message, None, [])
    case None => Exchange(UploadForm(timestamp, files), inputs, coerce, upload, process)
  }

  /** The part of a submission after the checks: the two requests, each failure caught into the error text. */
  function Exchange(form: seq<FormPart>, inputs: map<string, InputValue>, coerce: InputValue -> Json,
                    upload: seq<FormPart> -> Reply, process: seq<(string, Json)> -> Reply): (r: Run)
    requires AllPresent(inputs)
    ensures r.error == "" <==> r.results.Some?
  {
    match upload(form)
    case Thrown(m) => Run(Caught(m), None, [Flags(true, false), Sent(UploadRequest(form)), Flags(false, false)])
    case Reply(ok, uploadBody) =>
      if !ok then
        Run(Caught(ReplyError(uploadBody, UploadFailedMessage)), None,
            [Flags(true, false), Sent(UploadRequest(form)), Flags(false, false)])
      else
        var body := ProcessBody(uploadBody, inputs, coerce);
        var events := [Flags(true, false), Sent(UploadRequest(form)), Flags(true, true), Sent(ProcessRequest(body)),
                       Flags(false, false)];
        match process(body)
        case Thrown(m) => Run(Caught(m), None, events)
        case Reply(processOk, processBody) =>
          if !processOk then Run(Caught(ReplyError(processBody, ProcessingFailedMessage)), None, events)
          else Run("", Some(processBody), events)
  }

  /**
   * Every exchange turns busy and sends the upload first, and ends idle: three
   * events when the upload fails, five when the process request is sent.
   */
  lemma ExchangeEvents(form: seq<FormPart>, inputs: map<string, InputValue>, coerce: InputValue -> Json,
                       upload: seq<FormPart> -> Reply, process: seq<(string, Json)> -> Reply)
    requires AllPresent(inputs)
    ensures var r := Exchange(form, inputs, coerce, upload, process);
      && (|r.events| == 5 <==> UploadSucceeded(upload(form)))
      && (|r.events| == 3 <==> !UploadSucceeded(upload(form)))
      && r.events[0] == Flags(true, false) && r.events[1] == Sent(UploadRequest(form))
      && r.events[|r.events| - 1] == Flags(false, false)
  {
  }

  predicate IsProcessRequest(e: Event) {
    e.Sent? && e.request.ProcessRequest?
  }

  predicate UploadSucceeded(reply: Reply) {
    reply.Reply? && reply.ok
  }

  /** A submission stopped by the pre-flight checks issues no request and never turns busy. */
  lemma PreflightSendsNothing(files: seq<FileRef>, inputs: map<string, InputValue>, timestamp: nat,
                              coerce: InputValue -> Json, upload: seq<FormPart> -> Reply, process: seq<(string, Json)> -> Reply)
    requires Preflight(files, inputs).Some?
    ensures var run := Submit(files, inputs, timestamp, coerce, upload, process);
      run.error == Preflight(files, inputs).value && run.results.None? && run.events == []
  {
  }

  /**
   * When the upload fails the process request is never issued, no results are
   * kept, and the error is the server's message or 'Upload failed'.
   */
  lemma UploadFailureStopsBeforeProcess(files: seq<FileRef>, inputs: map<string, InputValue>, timestamp: nat,
                                        coerce: InputValue -> Json, upload: seq<FormPart> -> Reply, process: seq<(string, Json)> -> Reply)
    requires Preflight(files, inputs).None?
    requires !UploadSucceeded(upload(UploadForm(timestamp, files)))
    ensures var run := Submit(files, inputs, timestamp, coerce, upload, process);
      && run.results.None?
      && (forall k :: 0 <= k < |run.events| ==> !IsProcessRequest(run.events[k]))
      && run.error == match upload(UploadForm(timestamp, files))
                      case Thrown(m) => Caught(m)
                      case Reply(_, body) => ReplyError(body, UploadFailedMessage)
  {
  }

  /** When processing fails the error is the server's message or 'Processing failed', and no results are kept. */
  lemma ProcessFailureReported(files: seq<FileRef>, inputs: map<string, InputValue>, timestamp: nat,
                               coerce: InputValue -> Json, upload: seq<FormPart> -> Reply, process: seq<(string, Json)> -> Reply)
    requires Preflight(files, inputs).None?
    requires UploadSucceeded(upload(UploadForm(timestamp, files)))
    requires var body := ProcessBody(upload(UploadForm(timestamp, files)).body, inputs, coerce);
      process(body).Reply? && !process(body).ok
    ensures var run := Submit(files, inputs, timestamp, coerce, upload, process);
      var body := ProcessBody(upload(UploadForm(timestamp, files)).body, inputs, coerce);
      run.results.None? && run.error == ReplyError(process(body).body, ProcessingFailedMessage)
  {
  }

  /**
   * When both requests succeed the results are the process reply verbatim, the
   * error is cleared, and the process request forwarded the `files` the upload
   * returned, not the names the client chose.
   */
  lemma SuccessKeepsReplyVerbatim(files: seq<FileRef>, inputs: map<string, InputValue>, timestamp: nat,
                                  coerce: InputValue -> Json, upload: seq<FormPart> -> Reply, process: seq<(string, Json)> -> Reply)
    requires Preflight(files, inputs).None?
    requires UploadSucceeded(upload(UploadForm(timestamp, files)))
    requires UploadSucceeded(process(ProcessBody(upload(UploadForm(timestamp, files)).body, inputs, coerce)))
    ensures var run := Submit(files, inputs, timestamp, coerce, upload, process);
      var uploadBody := upload(UploadForm(timestamp, files)).body;
      var body := ProcessBody(uploadBody, inputs, coerce);
      && run.error == ""
      && run.results == Some(process(body).body)
      && |run.events| == 5 && run.events[3] == Sent(ProcessRequest(body))
      && Get(body, "files") == Get(uploadBody, "files")
  {
    ProcessBodyFields(upload(UploadForm(timestamp, files)).body, inputs, coerce);
  }

  /** The status text shown by the component for the two busy flags. */
  function StatusText(loading: bool, processing: bool): (s: string)
    ensures s == "Idle" <==> !loading && !processing
    ensures s == "Processing" <==> processing
  {
    if processing then "Processing" else if loading then "Uploading" else "Idle"
  }

  /** The status line the busy flags give after each setter call. */
  function Statuses(events: seq<Event>): seq<string> {
    if events == [] then []
    else (if events[0].Flags? then [StatusText(events[0].loading, events[0].processing)] else []) + Statuses(events[1..])
  }

  /** Whether the Upload & Analyze button is enabled after these events (it is before the first). */
  predicate TriggerEnabledAfter(events: seq<Event>): (enabled: bool)
    ensures (forall k :: 0 <= k < |events| ==> !events[k].Flags?) ==> enabled
    decreases |events|
  {
    if events == [] then true
    else if events[|events| - 1].Flags? then !(events[|events| - 1].loading || events[|events| - 1].processing)
    else TriggerEnabledAfter(events[..|events| - 1])
  }

  /**
   * The statuses a submission shows: none when it is rejected, Uploading then
   * Idle when the upload fails, Uploading, Processing, Idle otherwise. So the
   * processing flag is raised only after a successful upload, and both flags
   * are lowered on every way out.
   */
  lemma StatusSequence(files: seq<FileRef>, inputs: map<string, InputValue>, timestamp: nat,
                       coerce: InputValue -> Json, upload: seq<FormPart> -> Reply, process: seq<(string, Json)> -> Reply)
    ensures var run := Submit(files, inputs, timestamp, coerce, upload, process);
      Statuses(run.events) ==
        if Preflight(files, inputs).Some? then []
        else if !UploadSucceeded(upload(UploadForm(timestamp, files))) then ["Uploading", "Idle"]
        else ["Uploading", "Processing", "Idle"]
  {
    if Preflight(files, inputs).None? {
      var form := UploadForm(timestamp, files);
      if UploadSucceeded(upload(form)) {
        CompletedStatuses(form, ProcessBody(upload(form).body, inputs, coerce));
      } else {
        StoppedStatuses(form);
      }
    }
  }

  lemma StoppedStatuses(form: seq<FormPart>)
    ensures Statuses([Flags(true, false), Sent(UploadRequest(form)), Flags(false, false)]) == ["Uploading", "Idle"]
  {
    var e := [Flags(true, false), Sent(UploadRequest(form)), Flags(false, false)];
    assert e[2..][1..] == [] && e[1..][1..] == e[2..];
    assert Statuses(e[2..]) == ["Idle"];
  }

  lemma CompletedStatuses(form: seq<FormPart>, body: seq<(string, Json)>)
    ensures Statuses([Flags(true, false), Sent(UploadRequest(form)), Flags(true, true), Sent(ProcessRequest(body)),
                      Flags(false, false)]) == ["Uploading", "Processing", "Idle"]
  {
    var e := [Flags(true, false), Sent(UploadRequest(form)), Flags(true, true), Sent(ProcessRequest(body)),
              Flags(false, false)];
    assert e[4..][1..] == [] && e[3..][1..] == e[4..] && e[2..][1..] == e[3..] && e[1..][1..] == e[2..];
    assert Statuses(e[4..]) == ["Idle"];
    assert Statuses(e[2..]) == ["Processing", "Idle"];
  }

  /**
   * Every request is issued while the trigger is disabled, and the trigger is
   * enabled again when the submission ends, whichever way it ends.
   */
  lemma BusyWhileRequesting(files: seq<FileRef>, inputs: map<string, InputValue>, timestamp: nat,
                            coerce: InputValue -> Json, upload: seq<FormPart> -> Reply, process: seq<(string, Json)> -> Reply)
    ensures var run := Submit(files, inputs, timestamp, coerce, upload, process);
      && (forall k :: 0 <= k < |run.events| && run.events[k].Sent? ==> !TriggerEnabledAfter(run.events[..k]))
      && TriggerEnabledAfter(run.events)
      && (run.events == [] || run.events[|run.events| - 1] == Flags(false, false))
  {
    var run := Submit(files, inputs, timestamp, coerce, upload, process);
    var e := run.events;
    forall k | 0 <= k < |e| && e[k].Sent?
      ensures !TriggerEnabledAfter(e[..k])
    {
      assert k == 1 || k == 3;
      assert e[..k][k - 1] == e[k - 1];
    }
  }
}
