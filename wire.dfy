// The values that travel between the browser client and the Flask server:
// parsed JSON, files and multipart form parts, and the outcome of a fetch.
module Wire {

  datatype Option<+T> = None | Some(value: T)

  /** A parsed JSON value. An object keeps its members in text order. */
  datatype Json =
    | JNull
    | JBool(b: bool)
    | JNum(x: real)
    | JStr(s: string)
    | JArray(items: seq<Json>)
    | JObject(members: seq<(string, Json)>)

  /** No element is listed twice. */
  ghost predicate Distinct<T>(s: seq<T>) {
    forall i, j :: 0 <= i < j < |s| ==> s[i] != s[j]
  }

  predicate HasKey(members: seq<(string, Json)>, key: string) {
    exists k :: 0 <= k < |members| && members[k].0 == key
  }

  /** Member lookup. With a repeated key the last member wins, as with JSON.parse and json.loads. */
  function Get(members: seq<(string, Json)>, key: string): (r: Option<Json>)
    ensures r.None? <==> !HasKey(members, key)
    ensures r.Some? ==> exists k :: 0 <= k < |members| && members[k] == (key, r.value)
    decreases |members|
  {
    if members == [] then None
    else if members[|members| - 1].0 == key then Some(members[|members| - 1].1)
    else Get(members[..|members| - 1], key)
  }

  /** Looking a key up in two member lists laid end to end: the later list wins. */
  lemma {:induction false} GetConcat(a: seq<(string, Json)>, b: seq<(string, Json)>, key: string)
    ensures Get(a + b, key) == if HasKey(b, key) then Get(b, key) else Get(a, key)
    decreases |b|
  {
    if b == [] {
      assert a + b == a;
    } else {
      assert (a + b)[..|a + b| - 1] == a + b[..|b| - 1];
      GetConcat(a, b[..|b| - 1], key);
      if b[|b| - 1].0 != key {
        assert HasKey(b, key) ==> HasKey(b[..|b| - 1], key);
        assert HasKey(b[..|b| - 1], key) ==> HasKey(b, key);
      }
    }
  }

  /** A key that no later member repeats is found with its own value. */
  lemma {:induction false} GetUnrepeated(members: seq<(string, Json)>, k: nat)
    requires k < |members|
    requires forall j :: k < j < |members| ==> members[j].0 != members[k].0
    ensures Get(members, members[k].0) == Some(members[k].1)
    decreases |members|
  {
    if k < |members| - 1 {
      var init := members[..|members| - 1];
      assert forall j :: k < j < |init| ==> init[j] == members[j];
      GetUnrepeated(init, k);
    }
  }

  /** What a JavaScript property read `v.key` yields; reading a property of null throws. */
  datatype Prop = Undefined | Defined(value: Json) | NullAccess

  function Property(v: Json, key: string): (p: Prop)
    ensures p.NullAccess? <==> v.JNull?
    ensures v.JObject? ==> (p.Defined? <==> HasKey(v.members, key))
  {
    match v
    case JNull => NullAccess
    case JObject(ms) => (match Get(ms, key) case Some(x) => Defined(x) case None => Undefined)
    case _ => Undefined
  }

  /** JavaScript truthiness of a JSON value. */
  predicate Truthy(v: Json) {
    match v
    case JNull => false
    case JBool(b) => b
    case JNum(x) => x != 0.0
    case JStr(s) => s != ""
    case _ => true
  }

  /** The contents of a file, an opaque token. */
  datatype Blob = Blob(id: nat)

  /** A browser File, or a file part as the server receives it. */
  datatype FileRef = FileRef(name: string, mimeType: string, blob: Blob)

  /** One part of a multipart form: the form field it is sent under and the file. */
  datatype FormPart = FormPart(field: string, file: FileRef)

  /**
   * What `await fetch(...)` followed by `await resp.json()` gives the client:
   * the status flag and the JSON object body, or the message of the error
   * thrown by a transport failure or an unparsable body.
   */
  datatype Reply = Reply(ok: bool, body: seq<(string, Json)>) | Thrown(message: string)
}
