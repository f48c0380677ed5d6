// The results part of the upload component: the Batch CPS figure and one
// card per file, an error card or a done card with its metrics.
module ClientResults {
  import opened Strings
  import opened Wire

  /** No two entries share a key. */
  predicate UniqueEntryKeys(es: seq<(string, Json)>) {
    forall i, j :: 0 <= i < j < |es| ==> es[i].0 != es[j].0
  }

  lemma HasKeyInit(ms: seq<(string, Json)>, key: string)
    requires ms != []
    ensures HasKey(ms, key) <==> HasKey(ms[..|ms| - 1], key) || ms[|ms| - 1].0 == key
  {
    if HasKey(ms, key) && ms[|ms| - 1].0 != key {
      var k :| 0 <= k < |ms| && ms[k].0 == key;
      assert ms[..|ms| - 1][k].0 == key;
    }
    if HasKey(ms[..|ms| - 1], key) {
      var k :| 0 <= k < |ms| - 1 && ms[..|ms| - 1][k].0 == key;
      assert ms[k].0 == key;
    }
  }

  /**
   * The keys of the object JSON.parse builds from the members: each key once,
   * where it first occurs (a repeated key overwrites the value in place).
   */
  function Keys(ms: seq<(string, Json)>): (keys: seq<string>)
    ensures forall key :: key in keys <==> HasKey(ms, key)
    ensures Distinct(keys)
    ensures |keys| <= |ms|
    decreases |ms|
  {
    if ms == [] then []
    else
      var known := Keys(ms[..|ms| - 1]);
      assert forall key :: HasKey(ms, key) <==> HasKey(ms[..|ms| - 1], key) || ms[|ms| - 1].0 == key by {
        forall key { HasKeyInit(ms, key); }
      }
      if ms[|ms| - 1].0 in known then known else known + [ms[|ms| - 1].0]
  }

  /** Key `a` occurs in the members before key `b` first does. */
  ghost predicate FirstBefore(ms: seq<(string, Json)>, a: string, b: string) {
    exists p :: 0 <= p < |ms| && ms[p].0 == a && !HasKey(ms[..p], b)
  }

  /** The keys are listed in the order of their first occurrences. */
  lemma {:induction false} KeysInOrder(ms: seq<(string, Json)>)
    ensures forall i, j :: 0 <= i < j < |Keys(ms)| ==> FirstBefore(ms, Keys(ms)[i], Keys(ms)[j])
    decreases |ms|
  {
    if ms != [] {
      var init := ms[..|ms| - 1];
      var keys, known := Keys(ms), Keys(init);
      KeysInOrder(init);
      forall i, j | 0 <= i < j < |keys|
        ensures FirstBefore(ms, keys[i], keys[j])
      {
        assert keys[i] == known[i];
        assert HasKey(init, keys[i]);
        var p :| 0 <= p < |init| && init[p].0 == keys[i] && (j < |known| ==> !HasKey(init[..p], keys[j]));
        assert ms[..p] == init[..p] && ms[p] == init[p];
        if j == |known| {
          assert !HasKey(init, keys[j]);
        }
      }
    }
  }

  /** The value a key holds in the parsed object: the last member with that key. */
  function Dedup(ms: seq<(string, Json)>): (d: seq<(string, Json)>)
    ensures |d| == |Keys(ms)|
    ensures forall k :: 0 <= k < |d| ==> d[k].0 == Keys(ms)[k] && Get(ms, d[k].0) == Some(d[k].1)
  {
    var keys := Keys(ms);
    seq(|keys|, k requires 0 <= k < |keys| => (keys[k], Get(ms, keys[k]).value))
  }

  /** Decimal digits without a leading zero ("0" itself included). */
  predicate Canonical(s: string) {
    |s| >= 1 && AllDigits(s) && (s[0] != '0' || |s| == 1)
  }

  lemma {:induction false} LeadingDigitPositive(s: string)
    requires |s| >= 1 && AllDigits(s) && s[0] != '0'
    ensures ParseNat(s) >= 1
    decreases |s|
  {
    var init := s[..|s| - 1];
    if |s| == 1 {
      assert init == [];
      assert Digit(0) == '0';
    } else {
      assert init[0] == s[0];
      LeadingDigitPositive(init);
    }
  }

  /** A canonical decimal is the text of its own value. */
  lemma {:induction false} CanonicalRoundTrip(s: string)
    requires Canonical(s)
    ensures NatToString(ParseNat(s)) == s
    decreases |s|
  {
    var init := s[..|s| - 1];
    if |s| == 1 {
      assert init == [];
      assert s == [Digit(DigitValue(s[0]))];
    } else {
      assert init[0] == s[0] && s == init + [s[|s| - 1]];
      CanonicalRoundTrip(init);
      LeadingDigitPositive(init);
      var n, d := ParseNat(s), DigitValue(s[|s| - 1]);
      assert n == ParseNat(init) * 10 + d;
      assert n / 10 == ParseNat(init) && n % 10 == d;
    }
  }

  /**
   * A property key that is an array index: the canonical decimal text of a
   * number below 2^32 - 1. Objects list these keys first, in ascending order.
   */
  predicate IsIndexKey(key: string) {
    Canonical(key) && ParseNat(key) <= 0xFFFF_FFFE
  }

  /** The array index of an entry's key, 0 for other keys. */
  function KeyNumber(e: (string, Json)): nat {
    if IsIndexKey(e.0) then ParseNat(e.0) else 0
  }

  /** Two index keys with one number are one key. */
  lemma IndexKeyInjective(a: string, b: string)
    requires IsIndexKey(a) && IsIndexKey(b) && ParseNat(a) == ParseNat(b)
    ensures a == b
  {
    CanonicalRoundTrip(a);
    CanonicalRoundTrip(b);
  }

  /** The entries whose key is (or is not) an array index, in their order. */
  function Select(es: seq<(string, Json)>, index: bool): (r: seq<(string, Json)>)
    ensures |r| <= |es|
    decreases |es|
  {
    if es == [] then [] else (if IsIndexKey(es[0].0) == index then [es[0]] else []) + Select(es[1..], index)
  }

  /** A selection holds exactly the entries of the whole whose key is of the kind asked for. */
  lemma {:induction false} SelectMembers(es: seq<(string, Json)>, index: bool)
    ensures forall e :: e in Select(es, index) <==> e in es && IsIndexKey(e.0) == index
    decreases |es|
  {
    if es != [] {
      SelectMembers(es[1..], index);
      assert es == [es[0]] + es[1..];
    }
  }

  lemma {:induction false} SelectSplit(es: seq<(string, Json)>)
    ensures |Select(es, true)| + |Select(es, false)| == |es|
    decreases |es|
  {
    if es != [] {
      SelectSplit(es[1..]);
    }
  }

  /** Where an entry of a selection comes from in the whole. */
  lemma {:induction false} SelectSource(es: seq<(string, Json)>, index: bool, i: nat) returns (p: nat)
    requires i < |Select(es, index)|
    ensures p < |es| && es[p] == Select(es, index)[i]
    decreases |es|
  {
    var rest := Select(es[1..], index);
    if IsIndexKey(es[0].0) == index && i == 0 {
      p := 0;
    } else {
      var k := if IsIndexKey(es[0].0) == index then i - 1 else i;
      var p' := SelectSource(es[1..], index, k);
      p := p' + 1;
    }
  }

  /** Two entries of a selection come in the order they have in the whole. */
  lemma {:induction false} SelectKeepsOrder(es: seq<(string, Json)>, index: bool, i: nat, j: nat) returns (p: nat, q: nat)
    requires i < j < |Select(es, index)|
    ensures p < q < |es| && es[p] == Select(es, index)[i] && es[q] == Select(es, index)[j]
    decreases |es|
  {
    var taken := IsIndexKey(es[0].0) == index;
    if taken && i == 0 {
      var q' := SelectSource(es[1..], index, j - 1);
      p, q := 0, q' + 1;
    } else {
      var i', j' := if taken then i - 1 else i, if taken then j - 1 else j;
      var p', q' := SelectKeepsOrder(es[1..], index, i', j');
      p, q := p' + 1, q' + 1;
    }
  }

  /** Strictly ascending by array index. */
  predicate Ascending(es: seq<(string, Json)>) {
    forall i, j :: 0 <= i < j < |es| ==> KeyNumber(es[i]) < KeyNumber(es[j])
  }

  function Insert(e: (string, Json), sorted: seq<(string, Json)>): (r: seq<(string, Json)>)
    ensures multiset(r) == multiset(sorted) + multiset{e}
    decreases |sorted|
  {
    if sorted == [] || KeyNumber(e) < KeyNumber(sorted[0]) then [e] + sorted
    else
      assert sorted == [sorted[0]] + sorted[1..];
      [sorted[0]] + Insert(e, sorted[1..])
  }

  /** Inserting keeps every number above a bound that all the parts are above. */
  lemma InsertAbove(e: (string, Json), sorted: seq<(string, Json)>, bound: nat)
    requires bound < KeyNumber(e)
    requires forall x :: x in sorted ==> bound < KeyNumber(x)
    ensures forall x :: x in Insert(e, sorted) ==> bound < KeyNumber(x)
  {
    forall x | x in Insert(e, sorted)
      ensures bound < KeyNumber(x)
    {
      assert x in multiset(Insert(e, sorted));
    }
  }

  lemma {:induction false} InsertAscending(e: (string, Json), sorted: seq<(string, Json)>)
    requires Ascending(sorted)
    requires forall x :: x in sorted ==> KeyNumber(x) != KeyNumber(e)
    ensures Ascending(Insert(e, sorted))
    decreases |sorted|
  {
    if sorted != [] && KeyNumber(e) >= KeyNumber(sorted[0]) {
      var head, tail := sorted[0], sorted[1..];
      assert forall x :: x in tail ==> x in sorted;
      InsertAscending(e, tail);
      forall x | x in tail
        ensures KeyNumber(head) < KeyNumber(x)
      {
        var k :| 0 <= k < |tail| && tail[k] == x;
        assert sorted[k + 1] == x;
      }
      InsertAbove(e, tail, KeyNumber(head));
      AscendingCons(head, Insert(e, tail));
    }
  }

  /** An entry below every entry of an ascending run can go in front of it. */
  lemma AscendingCons(head: (string, Json), rest: seq<(string, Json)>)
    requires Ascending(rest) && forall x :: x in rest ==> KeyNumber(head) < KeyNumber(x)
    ensures Ascending([head] + rest)
  {
    var r := [head] + rest;
    forall i, j | 0 <= i < j < |r|
      ensures KeyNumber(r[i]) < KeyNumber(r[j])
    {
      assert r[j] == rest[j - 1] && r[j] in rest;
      if i > 0 {
        assert r[i] == rest[i - 1];
      }
    }
  }

  /** Insertion sort by array index. */
  function SortByIndex(es: seq<(string, Json)>): (r: seq<(string, Json)>)
    ensures multiset(r) == multiset(es)
    decreases |es|
  {
    if es == [] then []
    else
      assert es == [es[0]] + es[1..];
      Insert(es[0], SortByIndex(es[1..]))
  }

  /** Entries with pairwise different numbers come out strictly ascending. */
  lemma {:induction false} SortAscending(es: seq<(string, Json)>)
    requires forall i, j :: 0 <= i < j < |es| ==> KeyNumber(es[i]) != KeyNumber(es[j])
    ensures Ascending(SortByIndex(es))
    decreases |es|
  {
    if es != [] {
      var tail := es[1..];
      SortAscending(tail);
      var sorted := SortByIndex(tail);
      forall x | x in sorted
        ensures KeyNumber(x) != KeyNumber(es[0])
      {
        assert x in multiset(tail);
        var k :| 0 <= k < |tail| && tail[k] == x;
        assert es[k + 1] == x;
      }
      InsertAscending(es[0], sorted);
    }
  }

  /**
   * The entries of the object parsed from the members (`Object.entries`,
   * `Object.values`): array-index keys first in ascending order, then the
   * other keys where they first occur, each with the last value given.
   */
  function ObjectEntries(ms: seq<(string, Json)>): seq<(string, Json)> {
    var d := Dedup(ms);
    SortByIndex(Select(d, true)) + Select(d, false)
  }

  /** The part of the entries with array-index keys: those of the parsed object, strictly ascending. */
  lemma IndexPart(ms: seq<(string, Json)>)
    ensures var d := Dedup(ms);
      var sorted := SortByIndex(Select(d, true));
      && |sorted| == |Select(d, true)|
      && (forall e :: e in sorted <==> e in d && IsIndexKey(e.0))
      && Ascending(sorted)
  {
    var d := Dedup(ms);
    var chosen := Select(d, true);
    var sorted := SortByIndex(chosen);
    assert |multiset(sorted)| == |multiset(chosen)|;
    SelectMembers(d, true);
    forall e
      ensures e in sorted <==> e in chosen
    {
      assert e in sorted <==> e in multiset(sorted);
    }
    forall i, j | 0 <= i < j < |chosen|
      ensures KeyNumber(chosen[i]) != KeyNumber(chosen[j])
    {
      var p, q := SelectKeepsOrder(d, true, i, j);
      assert chosen[i] in chosen && chosen[j] in chosen;
      if KeyNumber(chosen[i]) == KeyNumber(chosen[j]) {
        IndexKeyInjective(chosen[i].0, chosen[j].0);
        assert false;
      }
    }
    SortAscending(chosen);
  }

  /** The other part: keys of the parsed object that are no array index, where they first occur. */
  lemma PlainPart(ms: seq<(string, Json)>, i: nat, j: nat)
    requires i < j < |Select(Dedup(ms), false)|
    ensures var plain := Select(Dedup(ms), false);
      plain[i].0 != plain[j].0 && FirstBefore(ms, plain[i].0, plain[j].0)
  {
    var d := Dedup(ms);
    var p, q := SelectKeepsOrder(d, false, i, j);
    KeysInOrder(ms);
    assert d[p].0 == Keys(ms)[p] && d[q].0 == Keys(ms)[q];
  }

  /** The entries are the deduplicated members, rearranged. */
  lemma ObjectEntriesRearranged(ms: seq<(string, Json)>)
    ensures |ObjectEntries(ms)| == |Dedup(ms)|
    ensures forall e :: e in ObjectEntries(ms) <==> e in Dedup(ms)
  {
    var d := Dedup(ms);
    IndexPart(ms);
    SelectMembers(d, false);
    SelectSplit(d);
  }

  /** The order and key facts of the two parts, for every two of their entries. */
  lemma PlainPartAll(ms: seq<(string, Json)>)
    ensures var plain := Select(Dedup(ms), false);
      && UniqueEntryKeys(plain)
      && forall i, j :: 0 <= i < j < |plain| ==> FirstBefore(ms, plain[i].0, plain[j].0)
  {
    var plain := Select(Dedup(ms), false);
    forall i, j | 0 <= i < j < |plain|
      ensures plain[i].0 != plain[j].0 && FirstBefore(ms, plain[i].0, plain[j].0)
    {
      PlainPart(ms, i, j);
    }
  }

  /** An ascending run of index keys followed by other keys with distinct keys has distinct keys. */
  lemma UniqueJoin(sorted: seq<(string, Json)>, plain: seq<(string, Json)>)
    requires Ascending(sorted) && forall e :: e in sorted ==> IsIndexKey(e.0)
    requires UniqueEntryKeys(plain) && forall e :: e in plain ==> !IsIndexKey(e.0)
    ensures UniqueEntryKeys(sorted + plain)
  {
    var r := sorted + plain;
    forall i, j | 0 <= i < j < |r|
      ensures r[i].0 != r[j].0
    {
      if j < |sorted| {
        assert r[i] == sorted[i] && r[j] == sorted[j];
      } else if i < |sorted| {
        assert r[i] == sorted[i] && sorted[i] in sorted;
        assert r[j] == plain[j - |sorted|] && r[j] in plain;
      } else {
        assert r[i] == plain[i - |sorted|] && r[j] == plain[j - |sorted|];
      }
    }
  }

  /** The same two runs laid end to end are listed in the order of `ListedBefore`. */
  lemma OrderJoin(ms: seq<(string, Json)>, sorted: seq<(string, Json)>, plain: seq<(string, Json)>)
    requires Ascending(sorted) && forall e :: e in sorted ==> IsIndexKey(e.0)
    requires forall e :: e in plain ==> !IsIndexKey(e.0)
    requires forall i, j :: 0 <= i < j < |plain| ==> FirstBefore(ms, plain[i].0, plain[j].0)
    ensures var r := sorted + plain;
      forall i, j :: 0 <= i < j < |r| ==> ListedBefore(ms, r[i].0, r[j].0)
  {
    var r := sorted + plain;
    forall i, j | 0 <= i < j < |r|
      ensures ListedBefore(ms, r[i].0, r[j].0)
    {
      if j < |sorted| {
        assert r[i] == sorted[i] && r[j] == sorted[j];
        assert sorted[i] in sorted && sorted[j] in sorted;
      } else if i < |sorted| {
        assert r[i] == sorted[i] && sorted[i] in sorted;
        assert r[j] == plain[j - |sorted|] && r[j] in plain;
      } else {
        assert r[i] == plain[i - |sorted|] && r[j] == plain[j - |sorted|];
        assert r[i] in plain && r[j] in plain;
      }
    }
  }

  /** No two entries share a key. */
  lemma ObjectEntriesUnique(ms: seq<(string, Json)>)
    ensures UniqueEntryKeys(ObjectEntries(ms))
  {
    var d := Dedup(ms);
    IndexPart(ms);
    SelectMembers(d, false);
    PlainPartAll(ms);
    UniqueJoin(SortByIndex(Select(d, true)), Select(d, false));
  }

  /**
   * The entries list each key of the members once, with the value of its
   * last member: a repeated key is one entry.
   */
  lemma ObjectEntriesMembers(ms: seq<(string, Json)>)
    ensures var r := ObjectEntries(ms);
      && |r| == |Keys(ms)|
      && (forall key :: HasKey(r, key) <==> HasKey(ms, key))
      && (forall k :: 0 <= k < |r| ==> Get(ms, r[k].0) == Some(r[k].1))
      && UniqueEntryKeys(r)
  {
    var d := Dedup(ms);
    var r := ObjectEntries(ms);
    ObjectEntriesRearranged(ms);
    ObjectEntriesUnique(ms);
    forall key
      ensures HasKey(r, key) <==> HasKey(ms, key)
    {
      if HasKey(ms, key) {
        var k :| 0 <= k < |Keys(ms)| && Keys(ms)[k] == key;
        assert d[k] in r;
        var m :| 0 <= m < |r| && r[m] == d[k];
      }
      if HasKey(r, key) {
        var m :| 0 <= m < |r| && r[m].0 == key;
        assert r[m] in d;
      }
    }
    forall k | 0 <= k < |r|
      ensures Get(ms, r[k].0) == Some(r[k].1)
    {
      assert r[k] in d;
    }
  }

  /**
   * `a` is listed before `b` in an object's entries: array indices first, in
   * ascending order, then the other keys in the order they were first given.
   */
  ghost predicate ListedBefore(ms: seq<(string, Json)>, a: string, b: string) {
    if IsIndexKey(a) then IsIndexKey(b) ==> ParseNat(a) < ParseNat(b)
    else !IsIndexKey(b) && FirstBefore(ms, a, b)
  }

  /** Every two entries come in the order of `ListedBefore`. */
  lemma ObjectEntriesOrder(ms: seq<(string, Json)>)
    ensures var r := ObjectEntries(ms);
      forall i, j :: 0 <= i < j < |r| ==> ListedBefore(ms, r[i].0, r[j].0)
  {
    var d := Dedup(ms);
    IndexPart(ms);
    SelectMembers(d, false);
    PlainPartAll(ms);
    OrderJoin(ms, SortByIndex(Select(d, true)), Select(d, false));
  }

  /** `Object.entries(v)`; it throws on null. Arrays and strings have their positions as keys. */
  function EntriesOf(v: Json): (r: Option<seq<(string, Json)>>)
    ensures r.None? <==> v.JNull?
  {
    match v
    case JNull => None
    case JObject(ms) => Some(ObjectEntries(ms))
    case JArray(items) => Some(seq(|items|, k requires 0 <= k < |items| => (NatToString(k), items[k])))
    case JStr(s) => Some(seq(|s|, k requires 0 <= k < |s| => (NatToString(k), JStr([s[k]]))))
    case _ => Some([])
  }

  /** `Object.entries(results.results)`: an absent `results` member is undefined, and that throws. */
  function ResultEntries(results: seq<(string, Json)>): (r: Option<seq<(string, Json)>>)
    ensures r.None? <==> !HasKey(results, "results") || Get(results, "results") == Some(JNull)
  {
    match Get(results, "results")
    case None => None
    case Some(v) => EntriesOf(v)
  }

  /** `Object.values(...)`: the member values in order. */
  function Values(entries: seq<(string, Json)>): (vs: seq<Json>)
    ensures |vs| == |entries| && forall k :: 0 <= k < |entries| ==> vs[k] == entries[k].1
  {
    seq(|entries|, k requires 0 <= k < |entries| => entries[k].1)
  }

  /**
   * `r.cps || 0` added to a number: the summand; None where JavaScript throws
   * (a null entry) or the sum stops being a number (a truthy string, array or
   * object turns it into a string, and `toFixed` then throws).
   */
  function CpsTerm(entry: Json): (t: Option<real>)
    ensures entry.JNull? ==> t.None?
    ensures Property(entry, "cps").Undefined? ==> t == Some(0.0)
    ensures Property(entry, "cps") == Defined(JNull) ==> t == Some(0.0)
    ensures forall x :: Property(entry, "cps") == Defined(JNum(x)) ==> t == Some(x)
    ensures Property(entry, "cps") == Defined(JBool(true)) ==> t == Some(1.0)
    ensures forall s :: Property(entry, "cps") == Defined(JStr(s)) && s != "" ==> t.None?
  {
    match Property(entry, "cps")
    case NullAccess => None
    case Undefined => Some(0.0)
    case Defined(v) =>
      if !Truthy(v) then Some(0.0)
      else match v
        case JNum(x) => Some(x)
        case JBool(_) => Some(1.0)
        case _ => None
  }

  function AddTerm(acc: Option<real>, t: Option<real>): Option<real> {
    if acc.Some? && t.Some? then Some(acc.value + t.value) else None
  }

  /** The left-to-right running sum of `reduce(..., 0)`; None once a summand is None. */
  function Total(terms: seq<Option<real>>): (r: Option<real>)
    ensures r.Some? <==> forall k :: 0 <= k < |terms| ==> terms[k].Some?
    decreases |terms|
  {
    if terms == [] then Some(0.0)
    else AddTerm(Total(terms[..|terms| - 1]), terms[|terms| - 1])
  }

  /** The summands of the result values, in order. */
  function Terms(values: seq<Json>): (ts: seq<Option<real>>)
    ensures |ts| == |values| && forall k :: 0 <= k < |values| ==> ts[k] == CpsTerm(values[k])
  {
    seq(|values|, k requires 0 <= k < |values| => CpsTerm(values[k]))
  }

  /** The Batch CPS figure over the result values; None where the expression throws. */
  function BatchScore(values: seq<Json>): (r: Option<real>)
    ensures r.Some? <==> forall k :: 0 <= k < |values| ==> CpsTerm(values[k]).Some?
  {
    Total(Terms(values))
  }

  /** The sum over two runs of summands laid end to end is the sum of their sums. */
  lemma {:induction false} TotalAppend(a: seq<Option<real>>, b: seq<Option<real>>)
    ensures Total(a + b) == AddTerm(Total(a), Total(b))
    decreases |b|
  {
    if b == [] {
      assert a + b == a;
    } else {
      assert (a + b)[..|a + b| - 1] == a + b[..|b| - 1];
      assert (a + b)[|a + b| - 1] == b[|b| - 1];
      TotalAppend(a, b[..|b| - 1]);
    }
  }

  /** The score of two runs of values laid end to end is the sum of their scores. */
  lemma BatchScoreAppend(a: seq<Json>, b: seq<Json>)
    ensures BatchScore(a + b) == AddTerm(BatchScore(a), BatchScore(b))
  {
    var ta, tb, tab := Terms(a), Terms(b), Terms(a + b);
    assert forall k :: 0 <= k < |tab| ==> tab[k] == (ta + tb)[k];
    assert tab == ta + tb;
    TotalAppend(ta, tb);
  }

  /** The score of one value is its summand. */
  lemma BatchScoreSingle(v: Json)
    ensures BatchScore([v]) == CpsTerm(v)
  {
    var t := Terms([v]);
    assert t == [CpsTerm(v)] && t[..0] == [];
    assert Total(t) == AddTerm(Total([]), CpsTerm(v));
  }

  /** The order in which the values are listed does not change the score. */
  lemma BatchScoreOrderFree(a: seq<Json>, b: seq<Json>)
    ensures BatchScore(a + b) == BatchScore(b + a)
  {
    BatchScoreAppend(a, b);
    BatchScoreAppend(b, a);
  }

  /** The score is that of all values but the last, plus the last one's summand. */
  lemma BatchScoreLast(a: seq<Json>)
    requires a != []
    ensures BatchScore(a) == AddTerm(BatchScore(a[..|a| - 1]), CpsTerm(a[|a| - 1]))
  {
    assert a == a[..|a| - 1] + [a[|a| - 1]];
    BatchScoreAppend(a[..|a| - 1], [a[|a| - 1]]);
    BatchScoreSingle(a[|a| - 1]);
  }

  /** Taking one value out of the middle: the score of the rest, plus that value's summand. */
  lemma BatchScoreMiddle(left: seq<Json>, x: Json, right: seq<Json>)
    ensures BatchScore(left + [x] + right) == AddTerm(BatchScore(left + right), CpsTerm(x))
  {
    BatchScoreAppend(left + [x], right);
    BatchScoreAppend(left, [x]);
    BatchScoreAppend(left, right);
    BatchScoreSingle(x);
  }

  /** Two rearrangements of one another, less a value that both hold, are still rearrangements. */
  lemma RemoveLast(a: seq<Json>, b: seq<Json>, i: nat)
    requires multiset(a) == multiset(b) && a != [] && i < |b| && b[i] == a[|a| - 1]
    ensures b == b[..i] + [b[i]] + b[i + 1..]
    ensures multiset(a[..|a| - 1]) == multiset(b[..i] + b[i + 1..])
  {
    var x, rest, left, right := b[i], a[..|a| - 1], b[..i], b[i + 1..];
    assert a == rest + [x];
    assert b == left + [x] + right;
    assert multiset(b) == multiset(left + right) + multiset{x};
    assert multiset(left + right) == multiset(b) - multiset{x};
    assert multiset(rest) == multiset(a) - multiset{x};
  }

  /** Any rearrangement of the values gives the same score (sums of reals, not of doubles). */
  lemma {:induction false} BatchScorePermutation(a: seq<Json>, b: seq<Json>)
    requires multiset(a) == multiset(b)
    ensures BatchScore(a) == BatchScore(b)
    decreases |a|
  {
    if a == [] {
      assert |b| == |multiset(b)| == 0;
    } else {
      var x := a[|a| - 1];
      assert x in multiset(b);
      var i :| 0 <= i < |b| && b[i] == x;
      RemoveLast(a, b, i);
      BatchScorePermutation(a[..|a| - 1], b[..i] + b[i + 1..]);
      BatchScoreLast(a);
      BatchScoreMiddle(b[..i], x, b[i + 1..]);
    }
  }

  /** A value that carries no `cps`, such as a per-file error, adds nothing to the score. */
  lemma ValueWithoutCpsAddsNothing(values: seq<Json>, res: Json)
    requires res.JObject? && !HasKey(res.members, "cps")
    ensures BatchScore(values + [res]) == BatchScore(values)
  {
    BatchScoreAppend(values, [res]);
    assert Property(res, "cps").Undefined?;
    BatchScoreSingle(res);
  }

  /** A value as the server writes it: an object whose `cps` is a number, null or absent. */
  predicate Scored(res: Json) {
    res.JObject? &&
    match Property(res, "cps")
    case Defined(v) => v.JNull? || v.JNum?
    case _ => true
  }

  /** The number a value contributes, read independently of JavaScript's `||`. */
  function CpsValue(res: Json): real
    requires Scored(res)
  {
    match Property(res, "cps")
    case Defined(JNum(x)) => x
    case _ => 0.0
  }

  lemma ScoredTerm(res: Json)
    requires Scored(res)
    ensures CpsTerm(res) == Some(CpsValue(res))
  {
  }

  /** The plain sum of the values' cps numbers. */
  function SumCps(values: seq<Json>): real
    requires forall k :: 0 <= k < |values| ==> Scored(values[k])
    decreases |values|
  {
    if values == [] then 0.0 else SumCps(values[..|values| - 1]) + CpsValue(values[|values| - 1])
  }

  /** On well-formed values the Batch CPS figure is the plain sum of the cps numbers, missing ones as 0. */
  lemma {:induction false} BatchScoreIsSum(values: seq<Json>)
    requires forall k :: 0 <= k < |values| ==> Scored(values[k])
    ensures BatchScore(values) == Some(SumCps(values))
    decreases |values|
  {
    var ts := Terms(values);
    if values == [] {
      assert ts == [];
    } else {
      var n := |values|;
      var init := values[..n - 1];
      assert forall k :: 0 <= k < |init| ==> init[k] == values[k];
      BatchScoreIsSum(init);
      assert ts[..n - 1] == Terms(init);
      ScoredTerm(values[n - 1]);
      assert Total(ts) == AddTerm(Total(ts[..n - 1]), ts[n - 1]);
    }
  }

  /** A card of the results grid. */
  datatype Card =
    | ErrorCard(fileName: string, message: Json)
    | DoneCard(fileName: string, tClear: Prop, trafficScore: Prop, safetyPenalty: Json, greenWaveBonus: Prop, cps: Prop)

  /** `res.error` is truthy. */
  predicate ShowsError(res: Json) {
    Property(res, "error").Defined? && Truthy(Property(res, "error").value)
  }

  /** null or undefined, the values `??` replaces. */
  predicate Nullish(p: Prop) {
    p.Undefined? || p == Defined(JNull)
  }

  /** `res.safety_penalty ?? res.safety_penatly ?? 0` */
  function SafetyPenalty(res: Json): (p: Json)
    requires !res.JNull?
    ensures !Nullish(Property(res, "safety_penalty")) ==> p == Property(res, "safety_penalty").value
    ensures Nullish(Property(res, "safety_penalty")) && !Nullish(Property(res, "safety_penatly")) ==>
      p == Property(res, "safety_penatly").value
    ensures Nullish(Property(res, "safety_penalty")) && Nullish(Property(res, "safety_penatly")) ==> p == JNum(0.0)
  {
    var canonical, legacy := Property(res, "safety_penalty"), Property(res, "safety_penatly");
    if !Nullish(canonical) then canonical.value
    else if !Nullish(legacy) then legacy.value
    else JNum(0.0)
  }

  /** A canonical penalty of 0 is shown as 0 whatever the misspelt key holds (`??`, not `||`). */
  lemma ZeroPenaltyKept(res: Json)
    requires res.JObject? && Get(res.members, "safety_penalty") == Some(JNum(0.0))
    ensures SafetyPenalty(res) == JNum(0.0)
  {
  }

  /**
   * A value React can render as a child: a plain object throws ("Objects are
   * not valid as a React child"); an array renders its items one by one.
   */
  predicate Renderable(v: Json)
    decreases v
  {
    match v
    case JObject(_) => false
    case JArray(items) => forall k :: 0 <= k < |items| ==> Renderable(items[k])
    case _ => true
  }

  /** A property read placed in the markup renders: undefined shows nothing. */
  predicate PropRenderable(p: Prop) {
    match p
    case Undefined => true
    case Defined(v) => Renderable(v)
    case NullAccess => false
  }

  /**
   * The values a card places in the markup for an entry: `res.error` on an
   * error card; clear time, traffic score, penalty, green wave bonus and cps
   * on a done card.
   */
  function Shown(res: Json): seq<Prop>
    requires !res.JNull?
  {
    if ShowsError(res) then [Property(res, "error")]
    else [Property(res, "t_clear"), Property(res, "traffic_score"), Defined(SafetyPenalty(res)),
          Property(res, "green_wave_bonus"), Property(res, "cps")]
  }

  /** The values a card displays. */
  function Displayed(card: Card): seq<Prop> {
    match card
    case ErrorCard(_, message) => [Defined(message)]
    case DoneCard(_, tClear, trafficScore, penalty, bonus, cps) => [tClear, trafficScore, Defined(penalty), bonus, cps]
  }

  /** The card for an entry renders: reading `res.error` does not throw and every value shown renders. */
  predicate CardRenders(res: Json) {
    !res.JNull? && forall k :: 0 <= k < |Shown(res)| ==> PropRenderable(Shown(res)[k])
  }

  /**
   * The card for one entry; None when rendering it throws: the entry is null,
   * or a value the card shows is an object.
   */
  function CardOf(fileName: string, res: Json): (c: Option<Card>)
    ensures c.Some? <==> CardRenders(res)
    ensures c.Some? ==> c.value.fileName == fileName && (c.value.ErrorCard? <==> ShowsError(res))
    ensures c.Some? ==> Displayed(c.value) == Shown(res)
  {
    if !CardRenders(res) then None
    else if ShowsError(res) then Some(ErrorCard(fileName, Property(res, "error").value))
    else Some(DoneCard(fileName, Property(res, "t_clear"), Property(res, "traffic_score"), SafetyPenalty(res),
                       Property(res, "green_wave_bonus"), Property(res, "cps")))
  }

  /**
   * The results grid: one card per entry, in order, an error card exactly for
   * the entries whose `error` is truthy; it renders only when every card does.
   */
  function Cards(entries: seq<(string, Json)>): (r: Option<seq<Card>>)
    ensures r.Some? <==> forall k :: 0 <= k < |entries| ==> CardRenders(entries[k].1)
    ensures r.Some? ==> |r.value| == |entries|
    ensures r.Some? ==> forall k :: 0 <= k < |entries| ==>
      r.value[k].fileName == entries[k].0 && (r.value[k].ErrorCard? <==> ShowsError(entries[k].1))
      && Displayed(r.value[k]) == Shown(entries[k].1)
    decreases |entries|
  {
    if entries == [] then Some([])
    else match (CardOf(entries[0].0, entries[0].1), Cards(entries[1..]))
      case (Some(c), Some(cs)) => Some([c] + cs)
      case _ => None
  }

  /** What the results section renders; None where rendering throws. */
  datatype View = View(intersection: Prop, processed: seq<Json>, batchScore: real, cards: seq<Card>)

  /**
   * The results section for a `results` reply: the heading reads
   * `results.intersection` (an object throws) and joins
   * `results.videos_processed` (anything but an array throws), then the
   * Batch CPS figure, then the cards.
   */
  function ResultsView(results: seq<(string, Json)>): (v: Option<View>)
    ensures v.Some? ==> Get(results, "videos_processed") == Some(JArray(v.value.processed))
    ensures v.Some? <==> (PropRenderable(Property(JObject(results), "intersection"))
      && Get(results, "videos_processed").Some? && Get(results, "videos_processed").value.JArray?
      && ResultEntries(results).Some? && BatchScore(Values(ResultEntries(results).value)).Some?
      && Cards(ResultEntries(results).value).Some?)
    ensures v.Some? ==> v.value.cards == Cards(ResultEntries(results).value).value
  {
    if !PropRenderable(Property(JObject(results), "intersection")) then None
    else match (Get(results, "videos_processed"), ResultEntries(results))
    case (Some(JArray(names)), Some(entries)) =>
      (match (BatchScore(Values(entries)), Cards(entries))
       case (Some(score), Some(cards)) => Some(View(Property(JObject(results), "intersection"), names, score, cards))
       case _ => None)
    case _ => None
  }

  /** An object in the heading breaks the render of the results section. */
  lemma ObjectHeadingBreaksRender()
    ensures ResultsView([("intersection", JObject([])), ("videos_processed", JArray([])), ("results", JObject([]))]).None?
  {
    var results := [("intersection", JObject([])), ("videos_processed", JArray([])), ("results", JObject([]))];
    assert Get(results[..1], "intersection") == Some(JObject([]));
  }

  /** An object as an error card's message breaks the render of that card. */
  lemma ObjectMessageBreaksCard(res: Json)
    requires res == JObject([("error", JObject([]))])
    ensures CardOf("a.mp4", res).None?
  {
    assert Property(res, "error") == Defined(JObject([]));
    assert !PropRenderable(Shown(res)[0]);
  }

  /** An object among a done card's metrics, on its own or inside an array, breaks the render of that card. */
  lemma ObjectMetricBreaksCard(res: Json, clear: Json)
    requires clear == JObject([]) || clear == JArray([JNum(1.0), JObject([])])
    requires res == JObject([("t_clear", clear)])
    ensures CardOf("a.mp4", res).None?
  {
    assert Get(res.members[..0], "error") == None;
    assert Property(res, "t_clear") == Defined(clear);
    assert clear.JArray? ==> !Renderable(clear.items[1]);
    assert !PropRenderable(Shown(res)[0]);
  }

  /** An object whose keys are distinct and none an array index lists its members as given. */
  lemma PlainObjectEntries(ms: seq<(string, Json)>)
    requires UniqueEntryKeys(ms)
    requires forall k :: 0 <= k < |ms| ==> !IsIndexKey(ms[k].0)
    ensures ObjectEntries(ms) == ms
  {
    DedupUnique(ms);
    SelectAll(ms, false);
    SelectNone(ms, true);
  }

  /** Members with distinct keys are their own parsed object. */
  lemma DedupUnique(ms: seq<(string, Json)>)
    requires UniqueEntryKeys(ms)
    ensures Dedup(ms) == ms
  {
    KeysOfUnique(ms);
    var d := Dedup(ms);
    forall k | 0 <= k < |ms|
      ensures d[k] == ms[k]
    {
      GetUnrepeated(ms, k);
    }
  }

  lemma {:induction false} KeysOfUnique(ms: seq<(string, Json)>)
    requires UniqueEntryKeys(ms)
    ensures |Keys(ms)| == |ms| && forall k :: 0 <= k < |ms| ==> Keys(ms)[k] == ms[k].0
    decreases |ms|
  {
    if ms != [] {
      var init := ms[..|ms| - 1];
      KeysOfUnique(init);
    }
  }

  lemma {:induction false} SelectAll(es: seq<(string, Json)>, index: bool)
    requires forall k :: 0 <= k < |es| ==> IsIndexKey(es[k].0) == index
    ensures Select(es, index) == es
    decreases |es|
  {
    if es != [] {
      SelectAll(es[1..], index);
    }
  }

  lemma {:induction false} SelectNone(es: seq<(string, Json)>, index: bool)
    requires forall k :: 0 <= k < |es| ==> IsIndexKey(es[k].0) != index
    ensures Select(es, index) == []
    decreases |es|
  {
    if es != [] {
      SelectNone(es[1..], index);
    }
  }

  /** Members naming one key twice give one entry, with the later value. */
  lemma RepeatedKeyEntries(key: string, first: Json, later: Json)
    ensures ObjectEntries([(key, first), (key, later)]) == [(key, later)]
  {
    var ms := [(key, first), (key, later)];
    assert ms[..1][..0] == [] && ms[..1] == [ms[0]];
    assert Keys(ms[..1]) == [key];
    assert Keys(ms) == [key];
    ObjectEntriesMembers(ms);
    assert Get(ms, key) == Some(later);
  }

  /** The view of a reply whose parts are known. */
  lemma ResultsViewOf(results: seq<(string, Json)>, names: seq<Json>, entries: seq<(string, Json)>, score: real, cards: seq<Card>)
    requires Get(results, "videos_processed") == Some(JArray(names)) && ResultEntries(results) == Some(entries)
    requires BatchScore(Values(entries)) == Some(score) && Cards(entries) == Some(cards)
    requires PropRenderable(Property(JObject(results), "intersection"))
    ensures ResultsView(results) == Some(View(Property(JObject(results), "intersection"), names, score, cards))
  {
  }

  /** The parts of the repeated-name reply. */
  lemma RepeatedNameParts(first: Json, later: Json, names: seq<Json>)
    ensures var results := [("results", JObject([("x.mp4", first), ("x.mp4", later)])), ("videos_processed", JArray(names))];
      && Get(results, "videos_processed") == Some(JArray(names))
      && ResultEntries(results) == Some([("x.mp4", later)])
  {
    var results := [("results", JObject([("x.mp4", first), ("x.mp4", later)])), ("videos_processed", JArray(names))];
    RepeatedKeyEntries("x.mp4", first, later);
    assert results[..1] == [results[0]];
  }

  /** One scored value: a score of that value's cps and a done card. */
  lemma SingleScoredEntry(name: string, x: real)
    ensures var entries := [(name, JObject([("cps", JNum(x))]))];
      && BatchScore(Values(entries)) == Some(x)
      && Cards(entries).Some? && |Cards(entries).value| == 1 && Cards(entries).value[0].fileName == name
  {
    var v := JObject([("cps", JNum(x))]);
    assert Get(v.members, "cps") == Some(JNum(x));
    assert Values([(name, v)]) == [v];
    BatchScoreSingle(v);
  }

  /**
   * A reply listing one file name twice shows one card, for the later value,
   * and the Batch CPS figure counts that value once.
   */
  lemma RepeatedNameExample()
    ensures var ms := [("x.mp4", JObject([("cps", JNum(1.0))])), ("x.mp4", JObject([("cps", JNum(2.0))]))];
      var v := ResultsView([("results", JObject(ms)), ("videos_processed", JArray([JStr("x.mp4")]))]);
      && v.Some? && v.value.batchScore == 2.0 && |v.value.cards| == 1 && v.value.cards[0].fileName == "x.mp4"
  {
    var later := JObject([("cps", JNum(2.0))]);
    var ms := [("x.mp4", JObject([("cps", JNum(1.0))])), ("x.mp4", later)];
    var results := [("results", JObject(ms)), ("videos_processed", JArray([JStr("x.mp4")]))];
    var entries := [("x.mp4", later)];
    RepeatedNameParts(JObject([("cps", JNum(1.0))]), later, [JStr("x.mp4")]);
    SingleScoredEntry("x.mp4", 2.0);
    ResultsViewOf(results, [JStr("x.mp4")], entries, 2.0, Cards(entries).value);
  }

  /** Which of the example keys are array indices, and their numbers. */
  lemma ExampleIndexKeys()
    ensures !IsIndexKey("b") && IsIndexKey("10") && IsIndexKey("2")
    ensures ParseNat("10") == 10 && ParseNat("2") == 2
  {
    assert "10"[..1] == "1" && "1"[..0] == "" && "2"[..0] == "";
  }

  lemma ExampleDedup(ms: seq<(string, Json)>)
    requires ms == [("b", JNull), ("10", JNull), ("2", JNull)]
    ensures Dedup(ms) == ms
  {
    assert UniqueEntryKeys(ms);
    DedupUnique(ms);
  }

  lemma ExampleSelect(ms: seq<(string, Json)>)
    requires ms == [("b", JNull), ("10", JNull), ("2", JNull)]
    ensures Select(ms, true) == [("10", JNull), ("2", JNull)]
    ensures Select(ms, false) == [("b", JNull)]
  {
    ExampleIndexKeys();
    var t1, t2 := ms[1..], ms[2..];
    assert t2 == [("2", JNull)] && t2[1..] == [] && t1[1..] == t2;
    assert Select(t2, true) == [("2", JNull)] && Select(t2, false) == [];
    assert Select(t1, true) == [("10", JNull), ("2", JNull)] && Select(t1, false) == [];
  }

  lemma ExampleSort(es: seq<(string, Json)>)
    requires es == [("10", JNull), ("2", JNull)]
    ensures SortByIndex(es) == [("2", JNull), ("10", JNull)]
  {
    ExampleIndexKeys();
    assert es[1..] == [("2", JNull)] && es[1..][1..] == [];
    assert SortByIndex(es[1..]) == [("2", JNull)];
  }

  /** Array-index keys come first, by number, and the other keys after them, in the order given. */
  lemma IndexKeysFirstExample()
    ensures ObjectEntries([("b", JNull), ("10", JNull), ("2", JNull)]) == [("2", JNull), ("10", JNull), ("b", JNull)]
  {
    var ms := [("b", JNull), ("10", JNull), ("2", JNull)];
    ExampleDedup(ms);
    ExampleSelect(ms);
    ExampleSort(Select(ms, true));
  }

  /** The example batch: one score of 5.5 and one failed file give 5.5, a done card and an error card. */
  lemma ExampleBatch()
    ensures var entries := [("x.mp4", JObject([("cps", JNum(5.5))])), ("y.mp4", JObject([("error", JStr("decode failed"))]))];
      && BatchScore(Values(entries)) == Some(5.5)
      && Cards(entries).Some? && Cards(entries).value[0].DoneCard? && Cards(entries).value[1].ErrorCard?
  {
    var entries := [("x.mp4", JObject([("cps", JNum(5.5))])), ("y.mp4", JObject([("error", JStr("decode failed"))]))];
    ExampleBatchScore(entries);
    ExampleBatchCards(entries);
  }

  lemma ExampleBatchScore(entries: seq<(string, Json)>)
    requires entries == [("x.mp4", JObject([("cps", JNum(5.5))])), ("y.mp4", JObject([("error", JStr("decode failed"))]))]
    ensures BatchScore(Values(entries)) == Some(5.5)
  {
    var vs := Values(entries);
    assert vs == [JObject([("cps", JNum(5.5))]), JObject([("error", JStr("decode failed"))])];
    assert Get([("cps", JNum(5.5))], "cps") == Some(JNum(5.5));
    assert Get([("error", JStr("decode failed"))][..0], "cps") == None;
    assert CpsTerm(vs[0]) == Some(5.5);
    assert CpsTerm(vs[1]) == Some(0.0);
    var ts := Terms(vs);
    assert ts == [Some(5.5), Some(0.0)];
    assert ts[..1] == [Some(5.5)] && ts[..1][..0] == [];
    assert Total(ts[..1]) == AddTerm(Total([]), Some(5.5));
  }

  lemma ExampleBatchCards(entries: seq<(string, Json)>)
    requires entries == [("x.mp4", JObject([("cps", JNum(5.5))])), ("y.mp4", JObject([("error", JStr("decode failed"))]))]
    ensures Cards(entries).Some? && Cards(entries).value[0].DoneCard? && Cards(entries).value[1].ErrorCard?
  {
    assert Get([("cps", JNum(5.5))], "cps") == Some(JNum(5.5));
    assert Get([("error", JStr("decode failed"))], "error") == Some(JStr("decode failed"));
  }
}
