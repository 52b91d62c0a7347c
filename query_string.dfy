/**
 * The query-string reader and writer: `queryString2Map` splits on a separator
 * and then on `=`, trims both sides and turns `''`, `'true'` and `'false'` into
 * booleans; `map2QueryString` writes `k=v` pairs joined by `&`. There is no
 * percent-decoding in either direction.
 */
module QueryString {
  import opened Wrappers
  import opened Text

  /** A property value written by `queryString2Map`: a trimmed string or a boolean. */
  datatype QueryValue = Str(text: string) | Flag(on: bool)

  /** One own property of a plain object. */
  datatype Entry = Entry(key: string, value: QueryValue)

  /** A plain JavaScript object: its own properties in insertion (enumeration) order. */
  type QueryMap = seq<Entry>

  predicate DistinctKeys(m: QueryMap) {
    forall i, j | 0 <= i < j < |m| :: m[i].key != m[j].key
  }

  /** The position of property `k`, or -1 when the object has no such property. */
  function KeyIndex(m: QueryMap, k: string): (r: int)
    ensures -1 <= r < |m|
    ensures r >= 0 ==> m[r].key == k && forall i | 0 <= i < r :: m[i].key != k
    ensures r == -1 ==> forall i | 0 <= i < |m| :: m[i].key != k
    decreases |m|
  {
    if m == [] then -1
    else if m[0].key == k then 0
    else
      var j := KeyIndex(m[1..], k);
      if j < 0 then -1 else j + 1
  }

  /** `obj.hasOwnProperty(k) ? obj[k] : undefined`. */
  function Lookup(m: QueryMap, k: string): (r: Option<QueryValue>)
    ensures r.None? <==> forall i | 0 <= i < |m| :: m[i].key != k
  {
    var i := KeyIndex(m, k);
    if i < 0 then None else Some(m[i].value)
  }

  /** `obj[k] = v`: an existing property keeps its place, a new one goes last. */
  function Assign(m: QueryMap, k: string, v: QueryValue): QueryMap {
    var i := KeyIndex(m, k);
    if i < 0 then m + [Entry(k, v)] else m[i := Entry(k, v)]
  }

  /** The first position holding key `k` is the one `KeyIndex` finds. */
  lemma KeyIndexIs(m: QueryMap, k: string, j: int)
    requires -1 <= j < |m|
    requires j >= 0 ==> m[j].key == k && forall i | 0 <= i < j :: m[i].key != k
    requires j == -1 ==> forall i | 0 <= i < |m| :: m[i].key != k
    ensures KeyIndex(m, k) == j
  {
    var r := KeyIndex(m, k);
    if r >= 0 && j >= 0 {
      assert !(r < j) && !(j < r);
    }
  }

  /** `obj[k] = v` never makes two properties share a key. */
  lemma AssignDistinct(m: QueryMap, k: string, v: QueryValue)
    requires DistinctKeys(m)
    ensures DistinctKeys(Assign(m, k, v))
  {
    var i := KeyIndex(m, k);
    var r := Assign(m, k, v);
    if i < 0 {
      assert forall j | 0 <= j < |m| :: r[j] == m[j];
    } else {
      assert forall j | 0 <= j < |m| && j != i :: r[j] == m[j];
    }
  }

  /** After `obj[k] = v`, `obj[k]` is `v` and every other property reads as before. */
  lemma AssignLookup(m: QueryMap, k: string, v: QueryValue, k': string)
    ensures Lookup(Assign(m, k, v), k') == if k' == k then Some(v) else Lookup(m, k')
  {
    var i := KeyIndex(m, k);
    var r := Assign(m, k, v);
    var j := KeyIndex(m, k');
    if i < 0 {
      if k' == k {
        KeyIndexIs(r, k, |m|);
      } else {
        KeyIndexIs(r, k', j);
      }
    } else {
      if k' == k {
        KeyIndexIs(r, k, i);
      } else {
        KeyIndexIs(r, k', j);
      }
    }
  }

  /** Assigning the entries one after another, in order. */
  function AssignAll(m: QueryMap, entries: seq<Entry>): QueryMap
    decreases |entries|
  {
    if entries == [] then m
    else
      var last := entries[|entries| - 1];
      Assign(AssignAll(m, entries[..|entries| - 1]), last.key, last.value)
  }

  /** The switch on the trimmed value. */
  function Coerce(value: string): (r: QueryValue)
    ensures r.Str? ==> r.text == value
    ensures r.Flag? ==> (r.on <==> value != "false")
  {
    if value == "" || value == "true" then Flag(true)
    else if value == "false" then Flag(false)
    else Str(value)
  }

  /** Exactly `''`, `'true'` and `'false'` become flags, and only `'false'` a false one. */
  lemma CoerceFlags(value: string)
    ensures Coerce(value).Flag? <==> value == "" || value == "true" || value == "false"
    ensures Coerce(value) == Flag(false) <==> value == "false"
  {
  }

  /** What one separator-delimited segment contributes: text before and between the first two `=`. */
  function SegmentEntry(segment: string): Entry {
    var pair := Split(segment, '=');
    var key := Trim(pair[0]);
    var value := Trim(if |pair| > 1 then pair[1] else "");
    Entry(key, Coerce(value))
  }

  /** Drops a single leading `?`. */
  function StripQuestionMark(qs: string): (r: string)
    ensures |r| <= |qs| && r == qs[|qs| - |r|..]
    ensures |r| < |qs| <==> qs != [] && qs[0] == '?'
    ensures |qs| - |r| <= 1
  {
    if |qs| > 0 && qs[0] == '?' then qs[1..] else qs
  }

  function SegmentEntries(segments: seq<string>): (r: seq<Entry>)
    ensures |r| == |segments|
    ensures forall i | 0 <= i < |segments| :: r[i] == SegmentEntry(segments[i])
  {
    seq(|segments|, i requires 0 <= i < |segments| => SegmentEntry(segments[i]))
  }

  /** The object `queryString2Map(qs, sep)` builds. */
  function ParseQuery(qs: string, sep: char): QueryMap {
    var s := StripQuestionMark(qs);
    if s == "" then [] else AssignAll([], SegmentEntries(Split(s, sep)))
  }

  /** One more assignment extends the prefix of entries assigned so far, keeping keys distinct. */
  lemma AssignNext(entries: seq<Entry>, i: nat)
    requires i < |entries| && DistinctKeys(AssignAll([], entries[..i]))
    ensures var m := AssignAll([], entries[..i]);
      && Assign(m, entries[i].key, entries[i].value) == AssignAll([], entries[..i + 1])
      && DistinctKeys(Assign(m, entries[i].key, entries[i].value))
  {
    var m := AssignAll([], entries[..i]);
    AssignDistinct(m, entries[i].key, entries[i].value);
    assert entries[..i + 1][..i] == entries[..i];
  }

  /** `queryString2Map(queryString, splitChar)` for a one-character separator. */
  method QueryString2Map(queryString: string, sep: char) returns (queryMap: QueryMap)
    ensures queryMap == ParseQuery(queryString, sep)
    ensures DistinctKeys(queryMap)
  {
    var qs := queryString;
    if |qs| > 0 && qs[0] == '?' {
      qs := qs[1..];
    }
    assert qs == StripQuestionMark(queryString);
    if qs == "" {
      return [];
    }
    queryMap := AssignSegments(Split(qs, sep));
  }

  /** The `forEach` over the segments: each one assigns its entry to the map in turn. */
  method AssignSegments(segments: seq<string>) returns (queryMap: QueryMap)
    ensures queryMap == AssignAll([], SegmentEntries(segments))
    ensures DistinctKeys(queryMap)
  {
    ghost var entries := SegmentEntries(segments);
    queryMap := [];
    var i := 0;
    while i < |segments|
      invariant 0 <= i <= |segments|
      invariant queryMap == AssignAll([], entries[..i])
      invariant DistinctKeys(queryMap)
    {
      var entry := SegmentEntry(segments[i]);
      assert entry == entries[i];
      AssignNext(entries, i);
      queryMap := Assign(queryMap, entry.key, entry.value);
      i := i + 1;
    }
    assert entries[..|segments|] == entries;
  }

  /** `cookie2Map(cookieString)`: the same reader with `;` as separator. */
  method Cookie2Map(cookieString: string) returns (cookieMap: QueryMap)
    ensures cookieMap == ParseQuery(cookieString, ';')
  {
    cookieMap := QueryString2Map(cookieString, ';');
  }

  /** The position of the last entry with key `k`, or -1. */
  function LastKeyIndex(entries: seq<Entry>, k: string): (r: int)
    ensures -1 <= r < |entries|
    ensures r >= 0 ==> entries[r].key == k && forall j | r < j < |entries| :: entries[j].key != k
    ensures r == -1 ==> forall j | 0 <= j < |entries| :: entries[j].key != k
    decreases |entries|
  {
    if entries == [] then -1
    else if entries[|entries| - 1].key == k then |entries| - 1
    else LastKeyIndex(entries[..|entries| - 1], k)
  }

  lemma {:induction false} AssignAllLookup(entries: seq<Entry>, k: string)
    ensures Lookup(AssignAll([], entries), k) ==
      var i := LastKeyIndex(entries, k); if i < 0 then None else Some(entries[i].value)
    decreases |entries|
  {
    if entries != [] {
      var n := |entries| - 1;
      AssignAllLookup(entries[..n], k);
      AssignLookup(AssignAll([], entries[..n]), entries[n].key, entries[n].value, k);
    }
  }

  /** The later of two segments with the same key wins; the object has exactly the keys seen. */
  lemma LastAssignmentWins(entries: seq<Entry>, k: string, v: QueryValue)
    ensures Lookup(AssignAll([], entries), k) == Some(v) <==>
      exists i | 0 <= i < |entries| ::
        entries[i] == Entry(k, v) && forall j | i < j < |entries| :: entries[j].key != k
    ensures Lookup(AssignAll([], entries), k) == None <==>
      forall i | 0 <= i < |entries| :: entries[i].key != k
  {
    AssignAllLookup(entries, k);
    var w := LastKeyIndex(entries, k);
    forall i | 0 <= i < |entries| && entries[i] == Entry(k, v) && (forall j | i < j < |entries| :: entries[j].key != k)
      ensures i == w
    {
      assert !(i < w) && !(w < i);
    }
  }

  /** Assigning distinct keys to an empty object keeps them in order. */
  lemma {:induction false} AssignAllDistinct(entries: seq<Entry>)
    requires DistinctKeys(entries)
    ensures AssignAll([], entries) == entries
    decreases |entries|
  {
    if entries != [] {
      var n := |entries| - 1;
      AssignAllDistinct(entries[..n]);
      assert KeyIndex(entries[..n], entries[n].key) == -1;
      assert entries[..n] + [entries[n]] == entries;
    }
  }

  /** `${value}` for a stored value. */
  function ValueText(v: QueryValue): string {
    match v
    case Str(t) => t
    case Flag(b) => if b then "true" else "false"
  }

  function PairText(e: Entry): string {
    e.key + "=" + ValueText(e.value)
  }

  function PairTexts(m: QueryMap): (r: seq<string>)
    ensures |r| == |m|
    ensures forall i | 0 <= i < |m| :: r[i] == PairText(m[i])
  {
    seq(|m|, i requires 0 <= i < |m| => PairText(m[i]))
  }

  /** The string `map2QueryString(map)` returns: the `k=v` pairs joined by `&`. */
  function Serialize(m: QueryMap): string {
    Join(PairTexts(m), '&')
  }

  /** Appending the next pair and its `&` to the text written so far. */
  lemma AppendPair(texts: seq<string>, i: nat)
    requires i < |texts|
    ensures (if i == 0 then "" else Join(texts[..i], '&') + "&") + texts[i] + "&" == Join(texts[..i + 1], '&') + "&"
  {
    if i > 0 {
      JoinSnoc(texts[..i], texts[i], '&');
      assert texts[..i] + [texts[i]] == texts[..i + 1];
    } else {
      assert texts[..1] == [texts[0]];
    }
  }

  /** `map2QueryString(map)`: appends `k=v&` per key, then drops the last character. */
  method Map2QueryString(m: QueryMap) returns (queryString: string)
    ensures queryString == Serialize(m)
  {
    var texts := PairTexts(m);
    queryString := "";
    var i := 0;
    while i < |m|
      invariant 0 <= i <= |m|
      invariant i == 0 ==> queryString == ""
      invariant i > 0 ==> queryString == Join(texts[..i], '&') + "&"
    {
      AppendPair(texts, i);
      queryString := queryString + PairText(m[i]) + "&";
      i := i + 1;
    }
    if |queryString| > 0 {
      queryString := queryString[..|queryString| - 1];
    }
    assert texts[..|m|] == texts;
  }

  /** Text that survives being a key or a value: no `&`, no `=`, no space at either end. */
  predicate Plain(s: string) {
    '&' !in s && '=' !in s && NoEdgeSpace(s)
  }

  /** The objects that come back unchanged from writing and reading them again. */
  predicate RoundTrips(m: QueryMap) {
    && DistinctKeys(m)
    && (forall i | 0 <= i < |m| :: Plain(m[i].key))
    && (forall i | 0 <= i < |m| :: m[i].value.Str? ==>
          Plain(m[i].value.text) && m[i].value.text != "" && m[i].value.text != "true" && m[i].value.text != "false")
    && (|m| > 0 && |m[0].key| > 0 ==> m[0].key[0] != '?')
  }

  /** A stored value, written out and read back, is the same value. */
  lemma ValueTextReadsBack(v: QueryValue)
    requires v.Str? ==> Plain(v.text) && v.text != "" && v.text != "true" && v.text != "false"
    ensures Plain(ValueText(v)) && Coerce(Trim(ValueText(v))) == v
  {
    match v
    case Str(t) => assert Trim(t) == t;
    case Flag(true) => TrueReadsBack();
    case Flag(false) => FalseReadsBack();
  }

  lemma TrueReadsBack()
    ensures Plain(ValueText(Flag(true))) && Coerce(Trim(ValueText(Flag(true)))) == Flag(true)
  {
    assert NoEdgeSpace("true");
  }

  lemma FalseReadsBack()
    ensures Plain(ValueText(Flag(false))) && Coerce(Trim(ValueText(Flag(false)))) == Flag(false)
  {
    assert NoEdgeSpace("false");
  }

  lemma PairTextReadsBack(e: Entry)
    requires Plain(e.key)
    requires e.value.Str? ==> Plain(e.value.text) && e.value.text != "" && e.value.text != "true" && e.value.text != "false"
    ensures '&' !in PairText(e)
    ensures SegmentEntry(PairText(e)) == e
  {
    var vt := ValueText(e.value);
    ValueTextReadsBack(e.value);
    assert PairText(e) == e.key + ['='] + vt;
    SplitTwo(e.key, vt, '=');
  }

  /** Reading back what `map2QueryString` wrote gives the same object. */
  lemma SerializeRoundTrip(m: QueryMap)
    requires RoundTrips(m)
    ensures ParseQuery(Serialize(m), '&') == m
  {
    if m != [] {
      var texts := PairTexts(m);
      forall i | 0 <= i < |m|
        ensures '&' !in texts[i] && SegmentEntry(texts[i]) == m[i]
      {
        PairTextReadsBack(m[i]);
      }
      var s := Serialize(m);
      JoinHead(texts, '&');
      assert StripQuestionMark(s) == s;
      SplitJoin(texts, '&');
      assert SegmentEntries(Split(s, '&')) == m;
      AssignAllDistinct(m);
    }
  }
}
