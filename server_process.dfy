// The Flask `/process` endpoint: validation of the JSON body, then one
// analysis per file name, collected into a result map whose entries are
// either the analysis result or the captured error message.
module ServerProcess {
  import opened Strings
  import opened Wire

  const RequiredKeys: seq<string> := ["files", "no_of_lanes", "platoon_weight", "incoming_distance", "average_speed"]
  const InvalidJsonMessage := "Invalid JSON format"
  const MissingPrefix := "Missing fields: "
  const ExactlyFourNamesMessage := "Exactly 4 filenames must be provided"
  const Intersection := "A"

  /** The request body as `request.get_json(force=True)` sees it. */
  datatype ProcessInput = Unparsable | Parsed(data: Json)

  /** The parameters handed to every analysis. */
  datatype Params = Params(noOfLanes: Json, platoonWeight: Json, incomingDistance: Json, averageSpeed: Json)

  /** The outcome of one `run_analysis` call: its result, or the exception's `str(e)`. */
  datatype Outcome = Completed(result: Json) | Raised(message: string)

  /** Where validation leaves the request. `Crashed` is an uncaught TypeError. */
  datatype Validation =
    | Rejected(status: nat, error: string)
    | Crashed
    | Accepted(fileNames: seq<Json>, params: Params)

  datatype ResponseBody =
    | ErrorBody(error: string)
    | Batch(intersection: string, videosProcessed: seq<Json>, results: map<Json, Json>)
    | InternalError

  datatype Response = Response(status: nat, body: ResponseBody)

  /** The parsed bodies on which Python's `in` works: dicts, lists and strings. */
  predicate Supports(data: Json) {
    data.JObject? || data.JArray? || data.JStr?
  }

  predicate IsSubstring(key: string, s: string) {
    exists i :: 0 <= i <= |s| && key <= s[i..]
  }

  /** `key in data`: a dict tests its keys, a list its elements, a string its substrings. */
  predicate In(data: Json, key: string)
    requires Supports(data)
  {
    match data
    case JObject(ms) => HasKey(ms, key)
    case JArray(items) => JStr(key) in items
    case JStr(s) => IsSubstring(key, s)
  }

  /** `m` can be obtained from `keys` by deleting elements. */
  predicate SubsequenceOf(m: seq<string>, keys: seq<string>)
    decreases |keys|
  {
    if m == [] then true
    else if keys == [] then false
    else (m[0] == keys[0] && SubsequenceOf(m[1..], keys[1..])) || SubsequenceOf(m, keys[1..])
  }

  /** `[k for k in keys if k not in data]` */
  function Missing(data: Json, keys: seq<string>): (missing: seq<string>)
    requires Supports(data)
    ensures |missing| <= |keys|
    decreases |keys|
  {
    if keys == [] then []
    else
      var rest := Missing(data, keys[1..]);
      if !In(data, keys[0]) then [keys[0]] + rest else rest
  }

  /** The missing keys are exactly the absent ones, in the order of `keys`. */
  lemma {:induction false} MissingExact(data: Json, keys: seq<string>)
    requires Supports(data)
    ensures SubsequenceOf(Missing(data, keys), keys)
    ensures forall k :: k in Missing(data, keys) <==> k in keys && !In(data, k)
    decreases |keys|
  {
    if keys != [] {
      var rest := Missing(data, keys[1..]);
      MissingExact(data, keys[1..]);
      assert forall k :: k in keys <==> k == keys[0] || k in keys[1..];
      if !In(data, keys[0]) {
        assert ([keys[0]] + rest)[1..] == rest;
      } else {
        assert SubsequenceOf(rest, keys) by {
          if rest != [] {
            assert SubsequenceOf(rest, keys[1..]);
          }
        }
      }
    }
  }

  /** `data.get(key, default)` */
  function GetOr(members: seq<(string, Json)>, key: string, default: Json): Json {
    match Get(members, key)
    case Some(v) => v
    case None => default
  }

  /** The checks of `process()` before any analysis, in their order. */
  function Validate(req: ProcessInput): (v: Validation)
    ensures req.Unparsable? ==> v == Rejected(400, InvalidJsonMessage)
    ensures req.Parsed? && !Supports(req.data) ==> v.Crashed?
    ensures req.Parsed? && Supports(req.data) && Missing(req.data, RequiredKeys) != [] ==>
      v == Rejected(400, MissingPrefix + Join(Missing(req.data, RequiredKeys), ", "))
    ensures req.Parsed? && Supports(req.data) && Missing(req.data, RequiredKeys) == [] && !req.data.JObject? ==> v.Crashed?
    ensures v.Accepted? ==>
      && |v.fileNames| == 4 && req.Parsed? && req.data.JObject?
      && Get(req.data.members, "files") == Some(JArray(v.fileNames))
  {
    match req
    case Unparsable => Rejected(400, InvalidJsonMessage)
    case Parsed(data) =>
      if !Supports(data) then Crashed
      else
        var missing := Missing(data, RequiredKeys);
        if missing != [] then Rejected(400, MissingPrefix + Join(missing, ", "))
        else if !data.JObject? then Crashed
        else
          MissingExact(data, RequiredKeys);
          assert RequiredKeys[0] in RequiredKeys && RequiredKeys[0] !in missing;
          var fileNames := Get(data.members, "files").value;
          if !fileNames.JArray? || |fileNames.items| != 4 then Rejected(400, ExactlyFourNamesMessage)
          else
            var ms := data.members;
            Accepted(fileNames.items,
                     Params(GetOr(ms, "no_of_lanes", JNum(2.0)), GetOr(ms, "platoon_weight", JNum(1.0)),
                            GetOr(ms, "incoming_distance", JNum(100.0)), GetOr(ms, "average_speed", JNum(40.0))))
  }

  /** A dict body with every key present is accepted exactly when `files` is a list of four. */
  lemma FileListCheck(members: seq<(string, Json)>)
    requires forall k :: 0 <= k < |RequiredKeys| ==> HasKey(members, RequiredKeys[k])
    ensures Missing(JObject(members), RequiredKeys) == []
    ensures var v := Validate(Parsed(JObject(members)));
      var f := Get(members, "files");
      && (v.Accepted? <==> f.Some? && f.value.JArray? && |f.value.items| == 4)
      && (!v.Accepted? ==> v == Rejected(400, ExactlyFourNamesMessage))
  {
    AllPresentNoneMissing(JObject(members), RequiredKeys);
  }

  lemma {:induction false} AllPresentNoneMissing(data: Json, keys: seq<string>)
    requires Supports(data) && forall k :: 0 <= k < |keys| ==> In(data, keys[k])
    ensures Missing(data, keys) == []
    decreases |keys|
  {
    if keys != [] {
      assert forall k :: 0 <= k < |keys| - 1 ==> keys[1..][k] == keys[k + 1];
      AllPresentNoneMissing(data, keys[1..]);
    }
  }

  /** Once the body is accepted the `data.get` defaults never apply: every parameter is the request's own value. */
  lemma DefaultsUnreachable(req: ProcessInput)
    requires Validate(req).Accepted?
    ensures var ms := req.data.members;
      && HasKey(ms, "no_of_lanes") && HasKey(ms, "platoon_weight")
      && HasKey(ms, "incoming_distance") && HasKey(ms, "average_speed")
      && Validate(req).params == Params(Get(ms, "no_of_lanes").value, Get(ms, "platoon_weight").value,
                                        Get(ms, "incoming_distance").value, Get(ms, "average_speed").value)
  {
    var data := req.data;
    assert Missing(data, RequiredKeys) == [];
    MissingExact(data, RequiredKeys);
    assert RequiredKeys[1] !in Missing(data, RequiredKeys);
    assert RequiredKeys[2] !in Missing(data, RequiredKeys);
    assert RequiredKeys[3] !in Missing(data, RequiredKeys);
    assert RequiredKeys[4] !in Missing(data, RequiredKeys);
  }

  /** The error entry `{"error": str(e)}`, or the analysis result. */
  function EntryOf(outcome: Outcome): (entry: Json)
    ensures outcome.Raised? ==> entry.JObject? && Get(entry.members, "error") == Some(JStr(outcome.message))
  {
    match outcome
    case Completed(result) => result
    case Raised(message) => JObject([("error", JStr(message))])
  }

  /** Values Python can use as dict keys; a list or a dict raises TypeError. */
  predicate Hashable(v: Json) {
    !v.JArray? && !v.JObject?
  }

  /** The kinds of key Python's `sorted` can compare with one another: text, numbers (bools among them), None. */
  function KeyKind(v: Json): nat {
    match v
    case JStr(_) => 0
    case JNull => 2
    case _ => 1
  }

  /**
   * `jsonify` writes a dict with its keys sorted (Flask's `sort_keys`). Python
   * orders no text against a number or None, and a sort that finishes has
   * compared every two keys that end up side by side, so the keys can be
   * written exactly when they are all of one kind.
   */
  predicate SortableKeys(names: seq<Json>) {
    forall i, j :: 0 <= i < |names| && 0 <= j < |names| ==> KeyKind(names[i]) == KeyKind(names[j])
  }

  /** File names that are all text can always be written. */
  lemma TextNamesSortable(names: seq<Json>)
    requires forall k :: 0 <= k < |names| ==> names[k].JStr?
    ensures SortableKeys(names)
  {
  }

  /** Text and a number among the names cannot be sorted, so `jsonify` raises. */
  lemma MixedNamesUnsortable()
    ensures !SortableKeys([JStr("a.mp4"), JNum(1.0), JStr("c.mp4"), JStr("d.mp4")])
  {
    var names := [JStr("a.mp4"), JNum(1.0), JStr("c.mp4"), JStr("d.mp4")];
    assert KeyKind(names[0]) != KeyKind(names[1]);
  }

  /** Every file name mapped to its entry; a repeated name is one key. */
  function ResultMap(fileNames: seq<Json>, params: Params, analyze: (Json, Params) -> Outcome): map<Json, Json> {
    map f | f in fileNames :: EntryOf(analyze(f, params))
  }

  /** `order` lists the positions 0..n-1 each once: the order in which the analyses complete. */
  predicate IsCompletionOrder(order: seq<nat>, n: nat) {
    && |order| == n
    && (forall k :: 0 <= k < n ==> order[k] < n)
    && (forall k :: 0 <= k < n ==> k in order)
  }

  /**
   * The `as_completed` loop: the analyses taken in completion `order`, each
   * result stored under its file name. A list or dict name cannot be a key,
   * and the TypeError escapes the `except` branch, which indexes the same way.
   */
  method Collect(fileNames: seq<Json>, params: Params, analyze: (Json, Params) -> Outcome, order: seq<nat>)
    returns (crashed: bool, keys: seq<Json>, results: map<Json, Json>)
    requires |fileNames| == 4 && IsCompletionOrder(order, 4)
    ensures crashed <==> exists k :: 0 <= k < 4 && !Hashable(fileNames[k])
    ensures !crashed ==> results == ResultMap(fileNames, params, analyze)
    ensures !crashed ==> Distinct(keys) && forall f :: f in keys <==> f in results
  {
    results := map[];
    keys := [];
    var i := 0;
    while i < |order|
      invariant 0 <= i <= |order|
      invariant forall k :: 0 <= k < i ==> Hashable(fileNames[order[k]])
      invariant results.Keys == set k | 0 <= k < i :: fileNames[order[k]]
      invariant forall f :: f in results ==> results[f] == EntryOf(analyze(f, params))
      invariant Distinct(keys)
      invariant forall f :: f in keys <==> f in results
    {
      var fname := fileNames[order[i]];
      if !Hashable(fname) {
        return true, keys, results;
      }
      var entry := EntryOf(analyze(fname, params));
      if fname !in results {
        keys := keys + [fname];
      }
      results := results[fname := entry];
      i := i + 1;
    }
    forall j | 0 <= j < 4
      ensures Hashable(fileNames[j]) && fileNames[j] in results
    {
      assert j in order;
      var k :| 0 <= k < |order| && order[k] == j;
    }
    assert results.Keys == ResultMap(fileNames, params, analyze).Keys;
    return false, keys, results;
  }

  /**
   * `process()`: validation, then the analyses collected as they complete in
   * `order`. Every name keys its own entry, so one failed analysis never
   * removes another; `videos_processed` lists each key once. `jsonify` then
   * raises on keys it cannot sort, and Flask answers 500.
   */
  method Process(req: ProcessInput, analyze: (Json, Params) -> Outcome, order: seq<nat>) returns (resp: Response)
    requires IsCompletionOrder(order, 4)
    ensures Validate(req).Rejected? ==> resp == Response(Validate(req).status, ErrorBody(Validate(req).error))
    ensures Validate(req).Crashed? ==> resp == Response(500, InternalError)
    ensures Validate(req).Accepted? && (exists k :: 0 <= k < 4 && !Hashable(Validate(req).fileNames[k])) ==>
      resp == Response(500, InternalError)
    ensures Validate(req).Accepted? && (forall k :: 0 <= k < 4 ==> Hashable(Validate(req).fileNames[k]))
            && !SortableKeys(Validate(req).fileNames) ==>
      resp == Response(500, InternalError)
    ensures Validate(req).Accepted? && (forall k :: 0 <= k < 4 ==> Hashable(Validate(req).fileNames[k]))
            && SortableKeys(Validate(req).fileNames) ==>
      && resp.status == 200 && resp.body.Batch? && resp.body.intersection == Intersection
      && resp.body.results == ResultMap(Validate(req).fileNames, Validate(req).params, analyze)
      && Distinct(resp.body.videosProcessed)
      && (forall f :: f in resp.body.videosProcessed <==> f in resp.body.results)
  {
    var v := Validate(req);
    match v {
      case Rejected(status, message) =>
        return Response(status, ErrorBody(message));
      case Crashed =>
        return Response(500, InternalError);
      case Accepted(fileNames, params) =>
        var crashed, keys, results := Collect(fileNames, params, analyze, order);
        if crashed {
          return Response(500, InternalError);
        }
        // jsonify(intersection_result)
        if !SortableKeys(fileNames) {
          return Response(500, InternalError);
        }
        return Response(200, Batch(Intersection, keys, results));
    }
  }

  /** Every submitted name is a key, every key is a submitted name, and each entry is that file's outcome. */
  lemma ResultMapEntries(fileNames: seq<Json>, params: Params, analyze: (Json, Params) -> Outcome, results: map<Json, Json>)
    requires results == ResultMap(fileNames, params, analyze)
    ensures forall k :: 0 <= k < |fileNames| ==> fileNames[k] in results
    ensures forall f :: f in results ==> exists k :: 0 <= k < |fileNames| && fileNames[k] == f
    ensures forall f :: f in results ==> results[f] == EntryOf(analyze(f, params))
  {
  }

  /** Distinct names give four entries. */
  lemma DistinctNamesFourEntries(fileNames: seq<Json>, params: Params, analyze: (Json, Params) -> Outcome)
    requires |fileNames| == 4 && Distinct(fileNames)
    ensures |ResultMap(fileNames, params, analyze)| == 4
  {
    var m := ResultMap(fileNames, params, analyze);
    assert m.Keys == {fileNames[0], fileNames[1], fileNames[2], fileNames[3]};
  }

  /** A repeated name collapses into one key, so fewer than four entries come back. */
  lemma RepeatedNameCollapses(fileNames: seq<Json>, params: Params, analyze: (Json, Params) -> Outcome)
    requires |fileNames| == 4 && !Distinct(fileNames)
    ensures |ResultMap(fileNames, params, analyze)| < 4
  {
    var m := ResultMap(fileNames, params, analyze);
    var i, j :| 0 <= i < j < 4 && fileNames[i] == fileNames[j];
    var f0, f1, f2, f3 := fileNames[0], fileNames[1], fileNames[2], fileNames[3];
    assert m.Keys == {f0, f1, f2, f3};
    if j == 1 {
      assert m.Keys == {f0, f2, f3};
    } else if j == 2 {
      assert m.Keys == {f0, f1, f3};
    } else {
      assert m.Keys == {f0, f1, f2};
    }
  }

  /** A body with only `files` and `platoon_weight` lacks three keys, listed in the fixed order. */
  lemma MissingExampleKeys(data: Json)
    requires data == JObject([("files", JArray([])), ("platoon_weight", JNum(1.0))])
    ensures Missing(data, RequiredKeys) == ["no_of_lanes", "incoming_distance", "average_speed"]
  {
    ExampleMembership(data);
    var k4: seq<string> := ["average_speed"];
    var k3 := ["incoming_distance"] + k4;
    var k2 := ["platoon_weight"] + k3;
    var k1 := ["no_of_lanes"] + k2;
    var k0 := ["files"] + k1;
    assert k0 == RequiredKeys;
    assert k4[1..] == [] && k3[1..] == k4 && k2[1..] == k3 && k1[1..] == k2 && k0[1..] == k1;
    assert Missing(data, k4) == ["average_speed"];
    assert Missing(data, k3) == ["incoming_distance", "average_speed"];
    assert Missing(data, k1) == ["no_of_lanes", "incoming_distance", "average_speed"];
  }

  /** Which of the five keys that body holds. */
  lemma ExampleMembership(data: Json)
    requires data == JObject([("files", JArray([])), ("platoon_weight", JNum(1.0))])
    ensures In(data, "files") && In(data, "platoon_weight")
    ensures !In(data, "no_of_lanes") && !In(data, "incoming_distance") && !In(data, "average_speed")
  {
    var ms := data.members;
    assert ms[0].0 == "files" && ms[1].0 == "platoon_weight";
  }

  /** The error text for that body. */
  lemma MissingExample(data: Json)
    requires data == JObject([("files", JArray([])), ("platoon_weight", JNum(1.0))])
    ensures Validate(Parsed(data)) ==
      Rejected(400, MissingPrefix + ("no_of_lanes" + ", " + ("incoming_distance" + ", " + "average_speed")))
  {
    MissingExampleKeys(data);
    var m := Missing(data, RequiredKeys);
    assert m[1..][1..] == ["average_speed"];
    assert Join(m[1..], ", ") == "incoming_distance" + ", " + "average_speed";
  }
}
