/** The UI message translation script: for every target language it finds
    the Korean message keys the language's file lacks, sends them to the
    translation model in batches of 50, merges every reply that parses into
    the file's messages, and writes the file back with the keys in Korean
    order first. The model's replies are a parameter, one per batch (None
    for a batch whose reply had no JSON object or failed); the files read
    and written are values. */
module TranslateUi {
  import opened Base

  const SourceLang := "ko"
  const TargetLangs: seq<string> := ["en", "ja", "zh", "es", "fr", "de", "vi", "th"]
  const BatchSize: nat := 50

  /** Keys that are never translated. */
  const SkipKeys: set<string> := {"common.priceFormat"}

  // ---------------------------------------------------------------------
  // Message files: JSON objects with their key order
  // ---------------------------------------------------------------------

  datatype Entry = Entry(key: string, text: string)

  /** A message file as an ordered object. */
  type Messages = seq<Entry>

  /** `o[k]`: the text of the last entry with key k. */
  function Lookup(o: Messages, k: string): Option<string> {
    if o == [] then None
    else if o[|o| - 1].key == k then Some(o[|o| - 1].text)
    else Lookup(o[..|o| - 1], k)
  }

  predicate HasKey(o: Messages, k: string) {
    Lookup(o, k).Some?
  }

  /** `o[k]` is truthy: present and not the empty string. */
  predicate Filled(o: Messages, k: string) {
    Lookup(o, k).Some? && Lookup(o, k).value != ""
  }

  /** No key occurs twice, as in any parsed JSON object. */
  predicate Distinct(o: Messages) {
    forall i, j | 0 <= i < j < |o| :: o[i].key != o[j].key
  }

  /** The entry with key k, for an object that holds one, gets text v. */
  function Replace(o: Messages, k: string, v: string): (r: Messages)
    requires HasKey(o, k)
    ensures |r| == |o| && forall i | 0 <= i < |o| :: r[i].key == o[i].key
  {
    if o[|o| - 1].key == k then o[..|o| - 1] + [Entry(k, v)]
    else Replace(o[..|o| - 1], k, v) + [o[|o| - 1]]
  }

  /** `o[k] = v`: an existing key keeps its place, a new key goes last. */
  function Put(o: Messages, k: string, v: string): Messages {
    if HasKey(o, k) then Replace(o, k, v) else o + [Entry(k, v)]
  }

  /** `Object.assign(e, t)`: t's entries are put in order. */
  function Assign(e: Messages, t: Messages): Messages {
    if t == [] then e
    else Put(Assign(e, t[..|t| - 1]), t[|t| - 1].key, t[|t| - 1].text)
  }

  lemma {:induction false} HasKeyIndex(o: Messages, k: string)
    ensures HasKey(o, k) <==> exists i | 0 <= i < |o| :: o[i].key == k
  {
    if o != [] {
      var a := o[..|o| - 1];
      HasKeyIndex(a, k);
      if HasKey(a, k) {
        var i :| 0 <= i < |a| && a[i].key == k;
        assert o[i].key == k;
      }
      if o[|o| - 1].key != k && exists i | 0 <= i < |o| :: o[i].key == k {
        var i :| 0 <= i < |o| && o[i].key == k;
        assert a[i].key == k;
      }
    }
  }

  /** In an object without repeated keys each entry is what its key reads. */
  lemma LookupAt(o: Messages, i: nat)
    requires Distinct(o) && i < |o|
    ensures Lookup(o, o[i].key) == Some(o[i].text)
    decreases |o|
  {
    if i < |o| - 1 {
      LookupAt(o[..|o| - 1], i);
    }
  }

  /** A key of the later part hides the earlier part's entry. */
  lemma {:induction false} LookupAppend(a: Messages, b: Messages, k: string)
    ensures Lookup(a + b, k) == if HasKey(b, k) then Lookup(b, k) else Lookup(a, k)
  {
    if b == [] {
      assert a + b == a;
    } else {
      assert (a + b)[..|a + b| - 1] == a + b[..|b| - 1];
      LookupAppend(a, b[..|b| - 1], k);
    }
  }

  lemma {:induction false} ReplaceLookup(o: Messages, k: string, v: string, k': string)
    requires HasKey(o, k)
    ensures Lookup(Replace(o, k, v), k') == if k' == k then Some(v) else Lookup(o, k')
  {
    var a := o[..|o| - 1];
    if o[|o| - 1].key == k {
      assert (a + [Entry(k, v)])[..|a|] == a;
    } else {
      ReplaceLookup(a, k, v, k');
      assert (Replace(a, k, v) + [o[|o| - 1]])[..|a|] == Replace(a, k, v);
    }
  }

  /** After `o[k] = v`, k reads v and every other key reads as before; the
      keys keep their order, with k appended when it is new. */
  lemma PutLookup(o: Messages, k: string, v: string, k': string)
    ensures Lookup(Put(o, k, v), k') == if k' == k then Some(v) else Lookup(o, k')
    ensures !HasKey(o, k) ==> Put(o, k, v) == o + [Entry(k, v)]
    ensures HasKey(o, k) ==> |Put(o, k, v)| == |o| && forall i | 0 <= i < |o| :: Put(o, k, v)[i].key == o[i].key
  {
    if HasKey(o, k) {
      ReplaceLookup(o, k, v, k');
    } else {
      assert (o + [Entry(k, v)])[..|o|] == o;
    }
  }

  lemma PutDistinct(o: Messages, k: string, v: string)
    requires Distinct(o)
    ensures Distinct(Put(o, k, v))
  {
    if !HasKey(o, k) {
      HasKeyIndex(o, k);
    }
  }

  /** After `Object.assign(e, t)` a key of t reads t's text and any other
      key reads e's. */
  lemma {:induction false} AssignLookup(e: Messages, t: Messages, k: string)
    ensures Lookup(Assign(e, t), k) == if HasKey(t, k) then Lookup(t, k) else Lookup(e, k)
  {
    if t != [] {
      var t0 := t[..|t| - 1];
      AssignLookup(e, t0, k);
      PutLookup(Assign(e, t0), t[|t| - 1].key, t[|t| - 1].text, k);
    }
  }

  lemma {:induction false} AssignDistinct(e: Messages, t: Messages)
    requires Distinct(e)
    ensures Distinct(Assign(e, t))
  {
    if t != [] {
      AssignDistinct(e, t[..|t| - 1]);
      PutDistinct(Assign(e, t[..|t| - 1]), t[|t| - 1].key, t[|t| - 1].text);
    }
  }

  // ---------------------------------------------------------------------
  // Missing keys
  // ---------------------------------------------------------------------

  /** The Korean keys, in Korean order, that are not skipped and whose text
      in the target is absent or empty. */
  function MissingKeys(source: Messages, existing: Messages): seq<string> {
    if source == [] then []
    else
      var k := source[|source| - 1].key;
      MissingKeys(source[..|source| - 1], existing) + (if k !in SkipKeys && !Filled(existing, k) then [k] else [])
  }

  lemma {:induction false} MissingKeysMembers(source: Messages, existing: Messages)
    ensures forall k :: k in MissingKeys(source, existing) <==> HasKey(source, k) && k !in SkipKeys && !Filled(existing, k)
  {
    if source != [] {
      MissingKeysMembers(source[..|source| - 1], existing);
    }
  }

  // ---------------------------------------------------------------------
  // Batches
  // ---------------------------------------------------------------------

  /** The number of passes of `for (i = 0; i < n; i += 50)`. */
  function NumBatches(n: nat): nat {
    (n + BatchSize - 1) / BatchSize
  }

  lemma BatchStart(j: nat, n: nat)
    ensures j < NumBatches(n) <==> BatchSize * j < n
  {
    var q := (n + BatchSize - 1) / BatchSize;
    assert n + BatchSize - 1 == BatchSize * q + (n + BatchSize - 1) % BatchSize;
  }

  /** `missing.slice(i, i + 50)` for the j-th pass, i = 50 * j. */
  function BatchAt(ms: seq<string>, j: nat): (b: seq<string>)
    requires j < NumBatches(|ms|)
    ensures 0 < |b| <= BatchSize
  {
    BatchStart(j, |ms|);
    var i := BatchSize * j;
    ms[i..if i + BatchSize <= |ms| then i + BatchSize else |ms|]
  }

  /** The first j batches, one after the other. */
  function Covered(ms: seq<string>, j: nat): seq<string>
    requires j <= NumBatches(|ms|)
  {
    if j == 0 then [] else Covered(ms, j - 1) + BatchAt(ms, j - 1)
  }

  /** The batches are consecutive slices: the first j cover the missing
      keys up to 50 * j, and all of them cover the list exactly once, in
      order. */
  lemma {:induction false} CoveredPrefix(ms: seq<string>, j: nat)
    requires j <= NumBatches(|ms|)
    ensures Covered(ms, j) == ms[..if BatchSize * j <= |ms| then BatchSize * j else |ms|]
  {
    if j > 0 {
      CoveredPrefix(ms, j - 1);
      BatchStart(j - 1, |ms|);
    }
  }

  lemma BatchesCover(ms: seq<string>)
    ensures Covered(ms, NumBatches(|ms|)) == ms
  {
    var n := NumBatches(|ms|);
    CoveredPrefix(ms, n);
    BatchStart(n, |ms|);
  }

  /** The object sent for one batch: each key with its Korean text. */
  function ToTranslate(source: Messages, batch: seq<string>): Messages {
    if batch == [] then []
    else
      var k := batch[|batch| - 1];
      Put(ToTranslate(source, batch[..|batch| - 1]), k, Lookup(source, k).GetOr(""))
  }

  /** A request carries exactly the batch's keys, each with its Korean
      text. */
  lemma {:induction false} ToTranslateLookup(source: Messages, batch: seq<string>, k: string)
    requires forall x | x in batch :: HasKey(source, x)
    ensures Lookup(ToTranslate(source, batch), k) == if k in batch then Lookup(source, k) else None
  {
    if batch != [] {
      var b0 := batch[..|batch| - 1];
      var x := batch[|batch| - 1];
      assert batch == b0 + [x];
      ToTranslateLookup(source, b0, k);
      PutLookup(ToTranslate(source, b0), x, Lookup(source, x).GetOr(""), k);
    }
  }

  /** The reply to the j-th batch; None when it failed or could not be
      parsed. */
  function Reply(replies: seq<Option<Messages>>, j: nat): Option<Messages> {
    if j < |replies| then replies[j] else None
  }

  /** What one batch does to the target's messages. */
  function Step(e: Messages, reply: Option<Messages>): Messages {
    match reply
    case None => e
    case Some(t) => Assign(e, t)
  }

  /** The target's messages after the first j batches. */
  function Merge(e: Messages, replies: seq<Option<Messages>>, j: nat): Messages {
    if j == 0 then e else Step(Merge(e, replies, j - 1), Reply(replies, j - 1))
  }

  /** The text of k in the latest of the first j replies that holds k. */
  function LatestReply(replies: seq<Option<Messages>>, j: nat, k: string): Option<string> {
    if j == 0 then None
    else
      var r := Reply(replies, j - 1);
      if r.Some? && HasKey(r.value, k) then Lookup(r.value, k) else LatestReply(replies, j - 1, k)
  }

  /** After the batches, a key reads the latest reply that holds it, and a
      key no reply holds reads as before: failed batches change nothing
      and later replies overwrite earlier ones. */
  lemma {:induction false} MergeLookup(e: Messages, replies: seq<Option<Messages>>, j: nat, k: string)
    ensures Lookup(Merge(e, replies, j), k) == if LatestReply(replies, j, k).Some? then LatestReply(replies, j, k) else Lookup(e, k)
  {
    if j > 0 {
      MergeLookup(e, replies, j - 1, k);
      var prev := Merge(e, replies, j - 1);
      var r := Reply(replies, j - 1);
      assert Merge(e, replies, j) == Step(prev, r);
      if r.Some? {
        AssignLookup(prev, r.value, k);
      } else {
        assert LatestReply(replies, j, k) == LatestReply(replies, j - 1, k);
      }
    }
  }

  /** When every batch fails the messages are untouched. */
  lemma {:induction false} AllFailedUnchanged(e: Messages, replies: seq<Option<Messages>>, j: nat)
    requires forall b | 0 <= b < j :: Reply(replies, b).None?
    ensures Merge(e, replies, j) == e
  {
    if j > 0 {
      AllFailedUnchanged(e, replies, j - 1);
    }
  }

  lemma {:induction false} MergeDistinct(e: Messages, replies: seq<Option<Messages>>, j: nat)
    requires Distinct(e)
    ensures Distinct(Merge(e, replies, j))
  {
    if j > 0 {
      MergeDistinct(e, replies, j - 1);
      var r := Reply(replies, j - 1);
      if r.Some? {
        AssignDistinct(Merge(e, replies, j - 1), r.value);
      }
    }
  }

  /** The batch loop: each pass sends the next slice and merges its reply. */
  method TranslateBatches(source: Messages, existing: Messages, missing: seq<string>, replies: seq<Option<Messages>>)
    returns (merged: Messages, sent: seq<Messages>)
    ensures merged == Merge(existing, replies, NumBatches(|missing|))
    ensures |sent| == NumBatches(|missing|)
    ensures forall j | 0 <= j < |sent| :: sent[j] == ToTranslate(source, BatchAt(missing, j))
  {
    merged, sent := existing, [];
    var i := 0;
    var batchNo := 0;
    while i < |missing|
      invariant i == BatchSize * batchNo && batchNo <= NumBatches(|missing|)
      invariant merged == Merge(existing, replies, batchNo)
      invariant sent == Requests(source, missing, batchNo)
    {
      BatchStart(batchNo, |missing|);
      var toTranslate;
      merged, toTranslate := RunBatch(source, missing, i, batchNo, merged, replies);
      sent := sent + [toTranslate];
      i := i + BatchSize;
      batchNo := batchNo + 1;
    }
    BatchStart(batchNo, |missing|);
    RequestsSpec(source, missing, batchNo);
  }

  /** The requests of the first j batches, in order. */
  function Requests(source: Messages, ms: seq<string>, j: nat): seq<Messages>
    requires j <= NumBatches(|ms|)
  {
    if j == 0 then [] else Requests(source, ms, j - 1) + [ToTranslate(source, BatchAt(ms, j - 1))]
  }

  lemma RequestsSpec(source: Messages, ms: seq<string>, j: nat)
    requires j <= NumBatches(|ms|)
    ensures |Requests(source, ms, j)| == j
    ensures forall k | 0 <= k < j :: Requests(source, ms, j)[k] == ToTranslate(source, BatchAt(ms, k))
  {
    forall k | 0 <= k < j ensures RequestAt(source, ms, j, k) {
      RequestsAt(source, ms, j, k);
    }
    RequestsLength(source, ms, j);
  }

  predicate RequestAt(source: Messages, ms: seq<string>, j: nat, k: nat)
    requires k < j <= NumBatches(|ms|)
  {
    |Requests(source, ms, j)| == j && Requests(source, ms, j)[k] == ToTranslate(source, BatchAt(ms, k))
  }

  lemma {:induction false} RequestsLength(source: Messages, ms: seq<string>, j: nat)
    requires j <= NumBatches(|ms|)
    ensures |Requests(source, ms, j)| == j
  {
    if j > 0 {
      RequestsLength(source, ms, j - 1);
    }
  }

  lemma {:induction false} RequestsAt(source: Messages, ms: seq<string>, j: nat, k: nat)
    requires k < j <= NumBatches(|ms|)
    ensures RequestAt(source, ms, j, k)
  {
    RequestsLength(source, ms, j - 1);
    if k < j - 1 {
      RequestsAt(source, ms, j - 1, k);
    }
  }

  /** One pass of the batch loop: slice the batch, build its request, and
      merge the reply when there is one. */
  method RunBatch(source: Messages, missing: seq<string>, i: nat, batchNo: nat, merged: Messages,
                  replies: seq<Option<Messages>>)
    returns (merged': Messages, toTranslate: Messages)
    requires batchNo < NumBatches(|missing|) && i == BatchSize * batchNo
    ensures merged' == Step(merged, Reply(replies, batchNo))
    ensures toTranslate == ToTranslate(source, BatchAt(missing, batchNo))
  {
    BatchStart(batchNo, |missing|);
    var batch := missing[i..if i + BatchSize <= |missing| then i + BatchSize else |missing|];
    toTranslate := BuildRequest(source, batch);
    var reply := if batchNo < |replies| then replies[batchNo] else None;
    merged' := merged;
    if reply.Some? {
      merged' := Assign(merged, reply.value);
    }
  }

  /** `for (const key of batch) toTranslate[key] = koMessages[key]`. */
  method BuildRequest(source: Messages, batch: seq<string>) returns (toTranslate: Messages)
    ensures toTranslate == ToTranslate(source, batch)
  {
    toTranslate := [];
    var m := 0;
    while m < |batch|
      invariant 0 <= m <= |batch|
      invariant toTranslate == ToTranslate(source, batch[..m])
    {
      assert batch[..m + 1][..m] == batch[..m];
      toTranslate := Put(toTranslate, batch[m], Lookup(source, batch[m]).GetOr(""));
      m := m + 1;
    }
    assert batch[..m] == batch;
  }

  // ---------------------------------------------------------------------
  // Sorted output
  // ---------------------------------------------------------------------

  /** First loop: the Korean keys whose merged text is truthy. */
  function FirstPass(source: Messages, e: Messages): Messages {
    if source == [] then []
    else
      var s := FirstPass(source[..|source| - 1], e);
      var k := source[|source| - 1].key;
      if Filled(e, k) then Put(s, k, Lookup(e, k).value) else s
  }

  /** Second loop over the first n keys of e: a key not yet truthy in the
      output is copied from e. */
  function SecondPass(s: Messages, e: Messages, n: nat): Messages
    requires n <= |e|
  {
    if n == 0 then s
    else
      var t := SecondPass(s, e, n - 1);
      var k := e[n - 1].key;
      if Filled(t, k) then t else Put(t, k, Lookup(e, k).GetOr(""))
  }

  /** The object written for a language. */
  function SortedOutput(source: Messages, e: Messages): Messages {
    SecondPass(FirstPass(source, e), e, |e|)
  }

  method SortOutput(source: Messages, existing: Messages) returns (sorted: Messages)
    ensures sorted == SortedOutput(source, existing)
  {
    sorted := [];
    var i := 0;
    while i < |source|
      invariant 0 <= i <= |source|
      invariant sorted == FirstPass(source[..i], existing)
    {
      assert source[..i + 1][..i] == source[..i];
      var key := source[i].key;
      if Filled(existing, key) {
        sorted := Put(sorted, key, Lookup(existing, key).value);
      }
      i := i + 1;
    }
    assert source[..i] == source;
    var n := 0;
    while n < |existing|
      invariant 0 <= n <= |existing|
      invariant sorted == SecondPass(FirstPass(source, existing), existing, n)
    {
      var key := existing[n].key;
      if !Filled(sorted, key) {
        sorted := Put(sorted, key, Lookup(existing, key).GetOr(""));
      }
      n := n + 1;
    }
  }

  /** The Korean-ordered part of the output: each Korean key whose text in
      e is truthy, with that text. */
  function Picked(source: Messages, e: Messages): Messages {
    if source == [] then []
    else
      var k := source[|source| - 1].key;
      Picked(source[..|source| - 1], e) + (if Filled(e, k) then [Entry(k, Lookup(e, k).value)] else [])
  }

  /** The rest of the output: e's first n entries whose key p lacks, in e's
      order. */
  function Others(e: Messages, n: nat, p: Messages): Messages
    requires n <= |e|
  {
    if n == 0 then []
    else
      var k := e[n - 1].key;
      Others(e, n - 1, p) + (if HasKey(p, k) then [] else [Entry(k, Lookup(e, k).GetOr(""))])
  }

  lemma {:induction false} PickedLookup(source: Messages, e: Messages, k: string)
    ensures HasKey(Picked(source, e), k) <==> HasKey(source, k) && Filled(e, k)
    ensures HasKey(Picked(source, e), k) ==> Lookup(Picked(source, e), k) == Lookup(e, k)
  {
    if source != [] {
      var a := source[..|source| - 1];
      var x := source[|source| - 1].key;
      PickedLookup(a, e, k);
      LookupAppend(Picked(a, e), if Filled(e, x) then [Entry(x, Lookup(e, x).value)] else [], k);
    }
  }

  lemma {:induction false} OthersLookup(e: Messages, n: nat, p: Messages, k: string)
    requires n <= |e|
    ensures HasKey(Others(e, n, p), k) <==> HasKey(e[..n], k) && !HasKey(p, k)
    ensures HasKey(Others(e, n, p), k) ==> Lookup(Others(e, n, p), k) == Lookup(e, k)
  {
    if n > 0 {
      var x := e[n - 1].key;
      OthersLookup(e, n - 1, p, k);
      assert e[..n][..n - 1] == e[..n - 1];
      LookupAppend(Others(e, n - 1, p), if HasKey(p, x) then [] else [Entry(x, Lookup(e, x).GetOr(""))], k);
      if k == x {
        HasKeyIndex(e, x);
      }
    }
  }

  /** Without repeated Korean keys the first loop only appends. */
  lemma {:induction false} FirstPassIsPicked(source: Messages, e: Messages)
    requires Distinct(source)
    ensures FirstPass(source, e) == Picked(source, e)
  {
    if source != [] {
      var a := source[..|source| - 1];
      var x := source[|source| - 1].key;
      FirstPassIsPicked(a, e);
      if Filled(e, x) {
        PickedLookup(a, e, x);
        HasKeyIndex(a, x);
        PutLookup(Picked(a, e), x, Lookup(e, x).value, x);
      }
    }
  }

  /** Without repeated keys in e the second loop only appends the keys p
      lacks. */
  lemma {:induction false} SecondPassAppends(p: Messages, e: Messages, n: nat)
    requires n <= |e| && Distinct(e)
    requires forall k | HasKey(p, k) :: Filled(p, k)
    ensures SecondPass(p, e, n) == p + Others(e, n, p)
  {
    if n > 0 {
      SecondPassAppends(p, e, n - 1);
      SecondPassStep(p, e, n);
    }
  }

  lemma SecondPassStep(p: Messages, e: Messages, n: nat)
    requires 0 < n <= |e| && Distinct(e)
    requires HasKey(p, e[n - 1].key) ==> Filled(p, e[n - 1].key)
    requires SecondPass(p, e, n - 1) == p + Others(e, n - 1, p)
    ensures SecondPass(p, e, n) == p + Others(e, n, p)
  {
    var x := e[n - 1].key;
    var o := Others(e, n - 1, p);
    var t := p + o;
    assert !HasKey(e[..n - 1], x) by {
      HasKeyIndex(e[..n - 1], x);
    }
    OthersLookup(e, n - 1, p, x);
    LookupAppend(p, o, x);
    if !HasKey(p, x) {
      var en := Entry(x, Lookup(e, x).GetOr(""));
      PutLookup(t, x, en.text, x);
      assert t + [en] == p + (o + [en]);
    }
  }

  /** The written object lists the Korean-ordered keys with truthy text
      first, then the remaining keys of the merged messages in their own
      order. */
  lemma SortedShape(source: Messages, e: Messages)
    requires Distinct(source) && Distinct(e)
    ensures SortedOutput(source, e) == Picked(source, e) + Others(e, |e|, Picked(source, e))
  {
    FirstPassIsPicked(source, e);
    var p := Picked(source, e);
    forall k | HasKey(p, k)
      ensures Filled(p, k)
    {
      PickedLookup(source, e, k);
    }
    SecondPassAppends(p, e, |e|);
  }

  /** The written object holds exactly the merged messages' keys, each with
      its merged text. */
  lemma SortedLookup(source: Messages, e: Messages, k: string)
    requires Distinct(source) && Distinct(e)
    ensures Lookup(SortedOutput(source, e), k) == Lookup(e, k)
  {
    SortedShape(source, e);
    var p := Picked(source, e);
    LookupAppend(p, Others(e, |e|, p), k);
    OthersLookup(e, |e|, p, k);
    PickedLookup(source, e, k);
    assert e[..|e|] == e;
  }

  // ---------------------------------------------------------------------
  // One language, all languages
  // ---------------------------------------------------------------------

  /** The file written for one language; None when nothing is missing and
      the file is left alone. An absent file reads as an empty object. */
  function LanguageOutput(source: Messages, file: Option<Messages>, replies: seq<Option<Messages>>): Option<Messages> {
    var e := file.GetOr([]);
    var missing := MissingKeys(source, e);
    if missing == [] then None
    else Some(SortedOutput(source, Merge(e, replies, NumBatches(|missing|))))
  }

  method TranslateLanguage(source: Messages, file: Option<Messages>, replies: seq<Option<Messages>>)
    returns (write: Option<Messages>, sent: seq<Messages>)
    ensures write == LanguageOutput(source, file, replies)
    ensures write.None? <==> MissingKeys(source, file.GetOr([])) == []
    ensures |sent| == NumBatches(|MissingKeys(source, file.GetOr([]))|)
    ensures forall j | 0 <= j < |sent| :: sent[j] == ToTranslate(source, BatchAt(MissingKeys(source, file.GetOr([])), j))
  {
    var existing := if file.Some? then file.value else [];
    var missing := MissingKeys(source, existing);
    if |missing| == 0 {
      return None, [];
    }
    var merged;
    merged, sent := TranslateBatches(source, existing, missing, replies);
    var sorted := SortOutput(source, merged);
    write := Some(sorted);
  }

  /** What the written file says: a key some reply holds reads the latest
      such reply's text, any other key reads as the old file did. */
  lemma OutputLookup(source: Messages, file: Option<Messages>, replies: seq<Option<Messages>>, k: string)
    requires Distinct(source) && Distinct(file.GetOr([]))
    requires LanguageOutput(source, file, replies).Some?
    ensures var j := NumBatches(|MissingKeys(source, file.GetOr([]))|);
      Lookup(LanguageOutput(source, file, replies).value, k) ==
        if LatestReply(replies, j, k).Some? then LatestReply(replies, j, k) else Lookup(file.GetOr([]), k)
  {
    var e := file.GetOr([]);
    var j := NumBatches(|MissingKeys(source, e)|);
    MergeDistinct(e, replies, j);
    SortedLookup(source, Merge(e, replies, j), k);
    MergeLookup(e, replies, j, k);
  }

  datatype FileWrite = FileWrite(lang: string, contents: Messages)

  datatype Run = NoApiKey | Completed(writes: seq<FileWrite>)

  function FileOf(files: map<string, Messages>, lang: string): Option<Messages> {
    if lang in files then Some(files[lang]) else None
  }

  function RepliesOf(replies: map<string, seq<Option<Messages>>>, lang: string): seq<Option<Messages>> {
    if lang in replies then replies[lang] else []
  }

  /** The files written for the given languages, in order. */
  function Writes(langs: seq<string>, source: Messages, files: map<string, Messages>,
                  replies: map<string, seq<Option<Messages>>>): seq<FileWrite> {
    if langs == [] then []
    else
      var lang := langs[|langs| - 1];
      Writes(langs[..|langs| - 1], source, files, replies) +
        match LanguageOutput(source, FileOf(files, lang), RepliesOf(replies, lang))
        case None => []
        case Some(o) => [FileWrite(lang, o)]
  }

  /** A language's file is written exactly when some key is missing from
      it, and then with that language's output. */
  lemma WritesLangs(langs: seq<string>, source: Messages, files: map<string, Messages>,
                    replies: map<string, seq<Option<Messages>>>, lang: string)
    ensures var out := LanguageOutput(source, FileOf(files, lang), RepliesOf(replies, lang));
      && (forall w | w in Writes(langs, source, files, replies) && w.lang == lang :: out == Some(w.contents))
      && (lang in langs && out.Some? ==> FileWrite(lang, out.value) in Writes(langs, source, files, replies))
  {
    WritesOnlyOutput(langs, source, files, replies, lang);
    WritesIncludeOutput(langs, source, files, replies, lang);
  }

  lemma {:induction false} WritesOnlyOutput(langs: seq<string>, source: Messages, files: map<string, Messages>,
                                            replies: map<string, seq<Option<Messages>>>, lang: string)
    ensures forall w | w in Writes(langs, source, files, replies) && w.lang == lang ::
              LanguageOutput(source, FileOf(files, lang), RepliesOf(replies, lang)) == Some(w.contents)
  {
    if langs != [] {
      WritesOnlyOutput(langs[..|langs| - 1], source, files, replies, lang);
      forall w | w in Writes(langs, source, files, replies) && w.lang == lang
        ensures LanguageOutput(source, FileOf(files, lang), RepliesOf(replies, lang)) == Some(w.contents)
      {
        WritesSnoc(langs, source, files, replies, w);
      }
    }
  }

  lemma {:induction false} WritesIncludeOutput(langs: seq<string>, source: Messages, files: map<string, Messages>,
                                               replies: map<string, seq<Option<Messages>>>, lang: string)
    ensures var out := LanguageOutput(source, FileOf(files, lang), RepliesOf(replies, lang));
            lang in langs && out.Some? ==> FileWrite(lang, out.value) in Writes(langs, source, files, replies)
  {
    var out := LanguageOutput(source, FileOf(files, lang), RepliesOf(replies, lang));
    if langs != [] && lang in langs && out.Some? {
      var a, last := langs[..|langs| - 1], langs[|langs| - 1];
      WritesSnoc(langs, source, files, replies, FileWrite(lang, out.value));
      if lang != last {
        InInit(langs, lang);
        WritesIncludeOutput(a, source, files, replies, lang);
      }
    }
  }

  lemma InInit(langs: seq<string>, x: string)
    requires x in langs && x != langs[|langs| - 1]
    ensures x in langs[..|langs| - 1]
  {
    var i :| 0 <= i < |langs| && langs[i] == x;
    assert langs[..|langs| - 1][i] == x;
  }

  /** The writes for one more language are those before and its own. */
  lemma WritesSnoc(langs: seq<string>, source: Messages, files: map<string, Messages>,
                   replies: map<string, seq<Option<Messages>>>, w: FileWrite)
    requires langs != []
    ensures var last := langs[|langs| - 1];
            var out := LanguageOutput(source, FileOf(files, last), RepliesOf(replies, last));
            w in Writes(langs, source, files, replies) <==>
              w in Writes(langs[..|langs| - 1], source, files, replies) || (out.Some? && w == FileWrite(last, out.value))
  {
  }

  /** `main`: nothing happens without an API key; otherwise every target
      language is processed in turn. */
  method TranslateAll(apiKey: Option<string>, source: Messages, files: map<string, Messages>,
                      replies: map<string, seq<Option<Messages>>>) returns (run: Run)
    ensures apiKey.None? || apiKey.value == "" ==> run == NoApiKey
    ensures apiKey.Some? && apiKey.value != "" ==> run == Completed(Writes(TargetLangs, source, files, replies))
  {
    if apiKey.None? || apiKey.value == "" {
      return NoApiKey;
    }
    var writes := WriteLangs(TargetLangs, source, files, replies);
    run := Completed(writes);
  }

  /** The language loop of `main`: each language in turn, its file written
      when it had missing keys. */
  method WriteLangs(langs: seq<string>, source: Messages, files: map<string, Messages>,
                    replies: map<string, seq<Option<Messages>>>) returns (writes: seq<FileWrite>)
    ensures writes == Writes(langs, source, files, replies)
  {
    writes := [];
    var i := 0;
    while i < |langs|
      invariant 0 <= i <= |langs|
      invariant writes == Writes(langs[..i], source, files, replies)
    {
      var lang := langs[i];
      WritesStep(langs, i, source, files, replies);
      var write, _ := TranslateLanguage(source, FileOf(files, lang), RepliesOf(replies, lang));
      if write.Some? {
        writes := writes + [FileWrite(lang, write.value)];
      }
      i := i + 1;
    }
    assert langs[..i] == langs;
  }

  lemma WritesStep(langs: seq<string>, i: nat, source: Messages, files: map<string, Messages>,
                   replies: map<string, seq<Option<Messages>>>)
    requires i < |langs|
    ensures var out := LanguageOutput(source, FileOf(files, langs[i]), RepliesOf(replies, langs[i]));
            Writes(langs[..i + 1], source, files, replies)
              == Writes(langs[..i], source, files, replies) + (if out.Some? then [FileWrite(langs[i], out.value)] else [])
  {
    assert langs[..i + 1][..i] == langs[..i];
  }
}
