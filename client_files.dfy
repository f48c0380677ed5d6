// The file-set part of the upload component: which dropped or picked files
// are kept, the cap of four, and the preview handles aligned with the files.
module ClientFiles {
  import opened Strings
  import opened Wire

  const MaxFiles: nat := 4
  const NotVideoMessage := "Please select video files only."

  /** An object URL made for a preview; an opaque token. */
  datatype ObjectUrl = ObjectUrl(handle: nat)

  /** A preview handle: its React key, the file name shown and the object URL. */
  datatype Preview = Preview(id: string, name: string, url: ObjectUrl)

  predicate IsVideoType(t: string) {
    |t| >= 6 && t[..6] == "video/"
  }

  /** `f && f.type && f.type.startsWith('video/')`; a missing entry is None. */
  predicate IsVideoCandidate(c: Option<FileRef>) {
    c.Some? && IsVideoType(c.value.mimeType)
  }

  /** The candidates kept by the video filter, in their order. */
  function VideoFiles(candidates: seq<Option<FileRef>>): (r: seq<FileRef>)
    ensures |r| <= |candidates|
    ensures forall k :: 0 <= k < |r| ==> IsVideoType(r[k].mimeType)
    ensures forall f :: f in r <==> Some(f) in candidates && IsVideoType(f.mimeType)
    decreases |candidates|
  {
    if candidates == [] then []
    else (if IsVideoCandidate(candidates[0]) then [candidates[0].value] else []) + VideoFiles(candidates[1..])
  }

  /** The filter keeps nothing exactly when no candidate is a video. */
  lemma NoVideoFiles(candidates: seq<Option<FileRef>>)
    ensures VideoFiles(candidates) == [] <==> forall k :: 0 <= k < |candidates| ==> !IsVideoCandidate(candidates[k])
  {
    forall k | 0 <= k < |candidates| && IsVideoCandidate(candidates[k])
      ensures VideoFiles(candidates) != []
    {
      assert candidates[k].value in VideoFiles(candidates);
    }
    if VideoFiles(candidates) != [] {
      var f := VideoFiles(candidates)[0];
      assert f in VideoFiles(candidates);
      var k :| 0 <= k < |candidates| && candidates[k] == Some(f);
      assert IsVideoCandidate(candidates[k]);
    }
  }

  /** Filtering two selections one after the other keeps the same files in the same order. */
  lemma {:induction false} VideoFilesAppend(a: seq<Option<FileRef>>, b: seq<Option<FileRef>>)
    ensures VideoFiles(a + b) == VideoFiles(a) + VideoFiles(b)
    decreases |a|
  {
    if a != [] {
      assert (a + b)[1..] == a[1..] + b;
      VideoFilesAppend(a[1..], b);
    } else {
      assert a + b == b;
    }
  }

  /** `[...existing, ...added].slice(0, 4)` */
  function Combine(existing: seq<FileRef>, added: seq<FileRef>): (r: seq<FileRef>)
    ensures |r| <= MaxFiles
    ensures |r| == (if |existing| + |added| < MaxFiles then |existing| + |added| else MaxFiles)
    ensures r == (existing + added)[..|r|]
  {
    var all := existing + added;
    if |all| <= MaxFiles then all else all[..MaxFiles]
  }

  /** A list of at most four files survives as a prefix of the new list. */
  lemma CombineKeepsExisting(existing: seq<FileRef>, added: seq<FileRef>)
    requires |existing| <= MaxFiles
    ensures existing <= Combine(existing, added)
    ensures added != [] && |existing| < MaxFiles ==> |Combine(existing, added)| > |existing|
  {
    var r := Combine(existing, added);
    assert forall k :: 0 <= k < |existing| ==> r[k] == (existing + added)[k] == existing[k];
  }

  /** Two additions in a row keep the first four of everything accepted, oldest first. */
  lemma CombineAccumulates(a: seq<FileRef>, b: seq<FileRef>, c: seq<FileRef>)
    ensures Combine(Combine(a, b), c) == Combine(a, b + c)
  {
    var ab := Combine(a, b);
    var lhs := Combine(ab, c);
    var rhs := Combine(a, b + c);
    assert a + (b + c) == (a + b) + c;
    assert |lhs| == |rhs|;
    forall k | 0 <= k < |lhs|
      ensures lhs[k] == rhs[k]
    {
      if k < |ab| {
        assert lhs[k] == ab[k] == (a + b)[k];
      } else {
        assert |ab| == |a| + |b|;
        assert lhs[k] == c[k - |ab|];
      }
    }
  }

  /** `${i}_${name}` */
  function PreviewId(index: nat, name: string): (id: string)
    ensures |id| == |NatToString(index)| + 1 + |name|
    ensures IsDigit(id[0]) && id[|NatToString(index)|] == '_' && id[|NatToString(index)| + 1..] == name
  {
    NatToString(index) + "_" + name
  }

  /** Previews agree with the files position by position, ids derived from the positions. */
  predicate Aligned(files: seq<FileRef>, previews: seq<Preview>) {
    |previews| == |files| &&
    forall k :: 0 <= k < |files| ==> previews[k].id == PreviewId(k, files[k].name) && previews[k].name == files[k].name
  }

  predicate UrlsDistinct(previews: seq<Preview>) {
    forall j, k :: 0 <= j < k < |previews| ==> previews[j].url != previews[k].url
  }

  predicate UrlsBelow(previews: seq<Preview>, bound: nat) {
    forall k :: 0 <= k < |previews| ==> previews[k].url.handle < bound
  }

  /** New previews for a file list, the object URLs minted from `firstUrl` on. */
  function FreshPreviews(files: seq<FileRef>, firstUrl: nat): (ps: seq<Preview>)
    ensures Aligned(files, ps) && UrlsDistinct(ps) && UrlsBelow(ps, firstUrl + |files|)
    ensures forall k :: 0 <= k < |ps| ==> ps[k].url.handle >= firstUrl
  {
    seq(|files|, k requires 0 <= k < |files| => Preview(PreviewId(k, files[k].name), files[k].name, ObjectUrl(firstUrl + k)))
  }

  /** The previews with ids re-derived from their new positions, names and URLs kept. */
  function Renumbered(previews: seq<Preview>): (r: seq<Preview>)
    ensures |r| == |previews|
    ensures forall k :: 0 <= k < |r| ==> r[k].name == previews[k].name && r[k].url == previews[k].url
  {
    seq(|previews|, k requires 0 <= k < |previews| => Preview(PreviewId(k, previews[k].name), previews[k].name, previews[k].url))
  }

  /** `splice(index, 1)` for an index inside the list. */
  function RemoveAt<T>(s: seq<T>, index: nat): (r: seq<T>)
    requires index < |s|
    ensures |r| == |s| - 1
    ensures forall k :: 0 <= k < |r| ==> r[k] == s[if k < index then k else k + 1]
  {
    s[..index] + s[index + 1..]
  }

  /** Renumbering aligned previews changes nothing. */
  lemma RenumberedAligned(files: seq<FileRef>, previews: seq<Preview>)
    requires Aligned(files, previews)
    ensures Renumbered(previews) == previews
  {
    var r := Renumbered(previews);
    forall k | 0 <= k < |previews|
      ensures r[k] == previews[k]
    {
      assert previews[k].name == files[k].name;
    }
  }

  /**
   * Removing position `index` from both lists and re-deriving the ids keeps the
   * previews aligned with the files; every surviving preview keeps its URL.
   */
  lemma RemoveKeepsAlignment(files: seq<FileRef>, previews: seq<Preview>, index: nat)
    requires Aligned(files, previews) && index < |files|
    ensures Aligned(RemoveAt(files, index), Renumbered(RemoveAt(previews, index)))
    ensures forall k :: 0 <= k < |files| - 1 ==>
      Renumbered(RemoveAt(previews, index))[k].url == previews[if k < index then k else k + 1].url
  {
  }

  /** Removing a preview keeps the object URLs distinct and below the same bound. */
  lemma RemoveKeepsUrls(previews: seq<Preview>, index: nat, bound: nat)
    requires UrlsDistinct(previews) && UrlsBelow(previews, bound) && index < |previews|
    ensures UrlsDistinct(Renumbered(RemoveAt(previews, index)))
    ensures UrlsBelow(Renumbered(RemoveAt(previews, index)), bound)
  {
    var r := Renumbered(RemoveAt(previews, index));
    forall j, k | 0 <= j < k < |r|
      ensures r[j].url != r[k].url
    {
      var j', k' := if j < index then j else j + 1, if k < index then k else k + 1;
      assert j' < k';
      assert r[j].url == previews[j'].url && r[k].url == previews[k'].url;
    }
  }

  /** Among at most ten aligned previews the React keys are pairwise distinct. */
  lemma PreviewIdsDistinct(files: seq<FileRef>, previews: seq<Preview>)
    requires Aligned(files, previews) && |files| <= 10
    ensures forall j, k :: 0 <= j < k < |previews| ==> previews[j].id != previews[k].id
  {
    forall j, k | 0 <= j < k < |previews|
      ensures previews[j].id != previews[k].id
    {
      assert previews[j].id[0] == Digit(j);
      assert previews[k].id[0] == Digit(k);
    }
  }
}
