/** The query-expression helpers of the database front end: filters and
    pipeline stages are JSON-like values in which a key or a value may be a
    callable. Callables are evaluated locally: `_resolve` swaps each callable
    value for a `$CALL(id)` marker recorded in a call table, and
    `_resolve_calls` swaps markers in query results for the callable's
    result. */
module Database {
  import opened Common

  /** An abstract callable (a filter method or a function on data). */
  datatype Fn = Fn(name: string)

  /** A dictionary key: a field name, or a callable used as a filter key. */
  datatype Key = Field(name: string) | CallableKey(f: Fn)

  /** A JSON-like value; a dictionary keeps its entries in insertion order. */
  datatype Value =
    | Null
    | Bool(b: bool)
    | Num(n: int)
    | Str(s: string)
    | List(items: seq<Value>)
    | Dict(entries: seq<Entry>)
    | Callable(f: Fn)

  datatype Entry = Entry(key: Key, value: Value)

  datatype DbError =
    | Unsupported(key: string)   // UnsupportedExpressionError for an illegal aggregation key
    | ProjectNotDict             // TypeError: a `$project` value that is not a dictionary
    | CallableValue              // AssertionError: a callable under a callable key
    | MissingCall(id: string)    // KeyError: a marker whose id is not in the call table

  const KEY_FILE_ID: string := "_file_id"
  const KEY_DOC_DATA: string := "data"
  const ILLEGAL_AGGREGATION_KEYS: seq<string> := ["$group", "$out"]
  const CALL_PREFIX: string := "$CALL("

  function Init<T>(s: seq<T>): seq<T> requires |s| > 0 { s[..|s| - 1] }
  function Last<T>(s: seq<T>): T requires |s| > 0 { s[|s| - 1] }

  // ---------------------------------------------------------------------
  // Dictionaries as entry sequences

  /** The keys of a dictionary. */
  function KeySet(es: seq<Entry>): set<Key> {
    set i | 0 <= i < |es| :: es[i].key
  }

  lemma KeySetAppend(es: seq<Entry>, e: Entry)
    ensures KeySet(es + [e]) == KeySet(es) + {e.key}
  {
    var r := es + [e];
    forall k | k in KeySet(es) ensures k in KeySet(r) {
      var i :| 0 <= i < |es| && es[i].key == k;
      assert r[i] == es[i];
    }
    assert r[|es|] == e;
  }

  /** No key occurs twice, as in every Python dictionary. */
  predicate UniqueKeys(es: seq<Entry>) {
    forall i, j | 0 <= i < j < |es| :: es[i].key != es[j].key
  }

  /** `d.get(k)`: the value of the last entry with key `k`. */
  function Get(es: seq<Entry>, k: Key): (v: Option<Value>)
    ensures v.Some? <==> k in KeySet(es)
    decreases |es|
  {
    if es == [] then None
    else if Last(es).key == k then Some(Last(es).value)
    else
      assert KeySet(es) == KeySet(Init(es)) + {Last(es).key};
      Get(Init(es), k)
  }

  /** `d[k] = v`: the entry with key `k` gets value `v` in place, or a new
      entry is appended. */
  function Put(es: seq<Entry>, k: Key, v: Value): (r: seq<Entry>)
    ensures KeySet(r) == KeySet(es) + {k}
    ensures UniqueKeys(es) ==> UniqueKeys(r)
    ensures UniqueKeys(es) ==> Get(r, k) == Some(v) && forall k' | k' != k :: Get(r, k') == Get(es, k')
    ensures k in KeySet(es) ==> |r| == |es|
    ensures k !in KeySet(es) ==> r == es + [Entry(k, v)]
    ensures forall i | 0 <= i < |r| :: r[i] in es || r[i] == Entry(k, v)
  {
    if k in KeySet(es) then
      var i := FirstIndex(es, k);
      var r := es[i := Entry(k, v)];
      assert forall j | 0 <= j < |r| :: r[j].key == es[j].key;
      assert KeySet(r) == KeySet(es);
      if UniqueKeys(es) then GetUpdated(es, i, v); r else r
    else
      KeySetAppend(es, Entry(k, v));
      if UniqueKeys(es) then GetAppended(es, k, v); es + [Entry(k, v)] else es + [Entry(k, v)]
  }

  function FirstIndex(es: seq<Entry>, k: Key): (i: nat)
    requires k in KeySet(es)
    ensures i < |es| && es[i].key == k
    ensures forall j | 0 <= j < i :: es[j].key != k
  {
    if es[0].key == k then 0
    else
      assert k in KeySet(es[1..]) by {
        var j :| 0 <= j < |es| && es[j].key == k;
        assert es[1..][j - 1] == es[j];
      }
      1 + FirstIndex(es[1..], k)
  }

  lemma {:induction false} GetUpdated(es: seq<Entry>, i: nat, v: Value)
    requires UniqueKeys(es) && i < |es|
    ensures UniqueKeys(es[i := Entry(es[i].key, v)])
    ensures Get(es[i := Entry(es[i].key, v)], es[i].key) == Some(v)
    ensures forall k' | k' != es[i].key :: Get(es[i := Entry(es[i].key, v)], k') == Get(es, k')
    decreases |es|
  {
    var r := es[i := Entry(es[i].key, v)];
    if i == |es| - 1 {
      assert Init(r) == Init(es);
      forall k' | k' != es[i].key ensures Get(r, k') == Get(es, k') { }
    } else {
      assert Init(r) == Init(es)[i := Entry(es[i].key, v)];
      GetUpdated(Init(es), i, v);
      GetNotLast(Init(r), es[i].key, Last(r));
    }
  }

  lemma GetNotLast(es: seq<Entry>, k: Key, e: Entry)
    requires e.key != k
    ensures Get(es + [e], k) == Get(es, k)
  {
    assert Init(es + [e]) == es;
  }

  lemma GetAppended(es: seq<Entry>, k: Key, v: Value)
    requires UniqueKeys(es) && k !in KeySet(es)
    ensures UniqueKeys(es + [Entry(k, v)])
    ensures Get(es + [Entry(k, v)], k) == Some(v)
    ensures forall k' | k' != k :: Get(es + [Entry(k, v)], k') == Get(es, k')
  {
    assert Init(es + [Entry(k, v)]) == es;
    forall i | 0 <= i < |es| ensures es[i].key != k {
      assert es[i].key in KeySet(es);
    }
  }

  /** In a dictionary with unique keys, each entry is what `Get` finds. */
  lemma {:induction false} GetEntry(es: seq<Entry>, i: nat)
    requires UniqueKeys(es) && i < |es|
    ensures Get(es, es[i].key) == Some(es[i].value)
    decreases |es|
  {
    if i < |es| - 1 {
      assert Init(es)[i] == es[i];
      GetEntry(Init(es), i);
    }
  }

  /** `del d[k]` on a dictionary with unique keys: the entry is removed,
      the others keep their order. */
  function Delete(es: seq<Entry>, k: Key): (r: seq<Entry>)
    ensures KeySet(r) == KeySet(es) - {k}
    ensures UniqueKeys(es) ==> UniqueKeys(r) && forall k' | k' != k :: Get(r, k') == Get(es, k')
    decreases |es|
  {
    if es == [] then []
    else
      var rest := Delete(Init(es), k);
      assert KeySet(es) == KeySet(Init(es)) + {Last(es).key};
      if Last(es).key == k then rest
      else
        KeySetAppend(rest, Last(es));
        assert Init(rest + [Last(es)]) == rest;
        rest + [Last(es)]
  }

  // ---------------------------------------------------------------------
  // `_split_filter`

  /** `_split_filter`: callable keys go to the methods filter, every other key
      to the standard filter, values untouched; no filter gives no filters. */
  method SplitFilter(filter: Option<seq<Entry>>) returns (standard: Option<seq<Entry>>, methods: Option<seq<Entry>>)
    ensures filter.None? <==> standard.None?
    ensures filter.None? <==> methods.None?
    ensures filter.Some? ==> UniqueKeys(standard.value) && UniqueKeys(methods.value)
    ensures filter.Some? ==> KeySet(standard.value) !! KeySet(methods.value)
    ensures filter.Some? ==> KeySet(standard.value) + KeySet(methods.value) == KeySet(filter.value)
    ensures filter.Some? ==> forall k | k in KeySet(standard.value) :: !k.CallableKey?
    ensures filter.Some? ==> forall k | k in KeySet(methods.value) :: k.CallableKey?
    ensures filter.Some? ==> forall k: Key | !k.CallableKey? :: Get(standard.value, k) == Get(filter.value, k)
    ensures filter.Some? ==> forall k: Key | k.CallableKey? :: Get(methods.value, k) == Get(filter.value, k)
  {
    if filter.None? {
      return None, None;
    }
    var es := filter.value;
    var s: seq<Entry> := [];
    var m: seq<Entry> := [];
    for i := 0 to |es|
      invariant UniqueKeys(s) && UniqueKeys(m)
      invariant KeySet(s) == KeySet(es[..i]) - set k | k in KeySet(es[..i]) && k.CallableKey?
      invariant KeySet(m) == set k | k in KeySet(es[..i]) && k.CallableKey?
      invariant forall k: Key | !k.CallableKey? :: Get(s, k) == Get(es[..i], k)
      invariant forall k: Key | k.CallableKey? :: Get(m, k) == Get(es[..i], k)
    {
      assert es[..i + 1] == es[..i] + [es[i]];
      assert Init(es[..i + 1]) == es[..i] && Last(es[..i + 1]) == es[i];
      assert KeySet(es[..i + 1]) == KeySet(es[..i]) + {es[i].key};
      if es[i].key.CallableKey? {
        m := Put(m, es[i].key, es[i].value);
      } else {
        s := Put(s, es[i].key, es[i].value);
      }
    }
    assert es[..|es|] == es;
    return Some(s), Some(m);
  }

  // ---------------------------------------------------------------------
  // `_resolve_projection` and `_resolve_files`

  /** `_resolve_projection`: without a projection the document itself;
      otherwise the entries whose key is projected, in order. */
  function ResolveProjection(doc: seq<Entry>, projection: Option<set<Key>>): (r: seq<Entry>)
    ensures projection.None? ==> r == doc
    ensures projection.Some? ==> KeySet(r) == KeySet(doc) * projection.value
    ensures projection.Some? ==> forall k :: Get(r, k) == (if k in projection.value then Get(doc, k) else None)
    ensures |r| <= |doc|
    decreases |doc|
  {
    if projection.None? || doc == [] then doc
    else
      var rest := ResolveProjection(Init(doc), projection);
      assert KeySet(doc) == KeySet(Init(doc)) + {Last(doc).key};
      if Last(doc).key in projection.value then
        assert Init(rest + [Last(doc)]) == rest;
        KeySetAppend(rest, Last(doc));
        rest + [Last(doc)]
      else rest
  }

  /** Projecting twice with the same projection is projecting once. */
  lemma ProjectionIdempotent(doc: seq<Entry>, projection: Option<set<Key>>)
    ensures forall k :: Get(ResolveProjection(ResolveProjection(doc, projection), projection), k)
                        == Get(ResolveProjection(doc, projection), k)
  {
  }

  /** `_resolve_files`: a copy of the document in which the file id, if
      present, is replaced by the fetched data under `data` (the grid-file
      fetch and decoding is the parameter `fetch`). */
  function ResolveFiles(doc: seq<Entry>, fetch: Value -> Value): (r: seq<Entry>)
    ensures Field(KEY_FILE_ID) !in KeySet(doc) ==> r == doc
    ensures Field(KEY_FILE_ID) in KeySet(doc) ==>
              KeySet(r) == KeySet(doc) - {Field(KEY_FILE_ID)} + {Field(KEY_DOC_DATA)}
    ensures UniqueKeys(doc) ==> UniqueKeys(r)
    ensures UniqueKeys(doc) && Field(KEY_FILE_ID) in KeySet(doc) ==>
              Get(r, Field(KEY_DOC_DATA)) == Some(fetch(Get(doc, Field(KEY_FILE_ID)).value))
              && forall k | k != Field(KEY_FILE_ID) && k != Field(KEY_DOC_DATA) :: Get(r, k) == Get(doc, k)
  {
    var fileId := Get(doc, Field(KEY_FILE_ID));
    if fileId.Some? then
      Delete(Put(doc, Field(KEY_DOC_DATA), fetch(fileId.value)), Field(KEY_FILE_ID))
    else doc
  }

  /** Resolving files twice changes nothing more: the file id is gone after
      the first time. */
  lemma ResolveFilesIdempotent(doc: seq<Entry>, fetch: Value -> Value)
    ensures ResolveFiles(ResolveFiles(doc, fetch), fetch) == ResolveFiles(doc, fetch)
  {
  }

  // ---------------------------------------------------------------------
  // Call markers

  /** The marker string for call id `id`: `"$CALL({})".format(id)`. */
  function Marker(id: string): string {
    CALL_PREFIX + id + ")"
  }

  /** `'{$literal': marker}`: the value `_resolve` puts in place of a callable. */
  function MarkerLiteral(id: string): Value {
    Dict([Entry(Field("$literal"), Str(Marker(id)))])
  }

  function StartsWith(s: string, prefix: string): bool {
    |prefix| <= |s| && s[..|prefix|] == prefix
  }

  /** `s[6:-1]` on a string that starts with `$CALL(`, with Python's slice
      clamping: empty when nothing lies between the prefix and the last
      character. */
  function ParseCall(s: string): (id: string)
    requires StartsWith(s, CALL_PREFIX)
    ensures |s| > |CALL_PREFIX| ==> id == s[|CALL_PREFIX|..|s| - 1] && |id| == |s| - |CALL_PREFIX| - 1
    ensures |s| == |CALL_PREFIX| ==> id == ""
  {
    if |s| <= 6 then "" else s[6..|s| - 1]
  }

  /** The marker of any id is recognised as a marker and parses back to
      exactly that id, whatever characters the id contains. */
  lemma MarkerRoundTrip(id: string)
    ensures StartsWith(Marker(id), CALL_PREFIX)
    ensures ParseCall(Marker(id)) == id
  {
    assert Marker(id)[..6] == CALL_PREFIX;
    assert Marker(id)[6..|Marker(id)| - 1] == id;
  }

  // ---------------------------------------------------------------------
  // `_resolve_calls`

  /** The data a dictionary passes down to the markers inside it: the fetched
      file when it has a file id, else its `data` entry, else what it was
      given. A Python `None` is `Null`. */
  function DataFor(es: seq<Entry>, data: Value, fetch: Value -> Value): (d: Value)
    ensures Field(KEY_FILE_ID) in KeySet(es) ==> d == fetch(Get(es, Field(KEY_FILE_ID)).value)
    ensures Field(KEY_FILE_ID) !in KeySet(es) && Field(KEY_DOC_DATA) in KeySet(es) ==>
              d == Get(es, Field(KEY_DOC_DATA)).value
    ensures Field(KEY_FILE_ID) !in KeySet(es) && Field(KEY_DOC_DATA) !in KeySet(es) ==> d == data
  {
    if Field(KEY_FILE_ID) in KeySet(es) then fetch(Get(es, Field(KEY_FILE_ID)).value)
    else if Field(KEY_DOC_DATA) in KeySet(es) then Get(es, Field(KEY_DOC_DATA)).value
    else data
  }

  /** What a marker string resolves to: nothing without data, the callable
      mapped over the items when the data is a list, else the callable
      applied to the data (conversion of the source data is part of `apply`). */
  function CallResult(f: Fn, data: Value, apply: (Fn, Value) -> Value): (v: Value)
    ensures data == Null ==> v == Null
    ensures data.List? ==> v.List? && |v.items| == |data.items|
                           && forall i | 0 <= i < |data.items| :: v.items[i] == apply(f, data.items[i])
    ensures data != Null && !data.List? ==> v == apply(f, data)
  {
    if data == Null then Null
    else if data.List? then List(seq(|data.items|, i requires 0 <= i < |data.items| => apply(f, data.items[i])))
    else apply(f, data)
  }

  /** `_resolve_calls`: markers in a query result replaced by the result of
      their callable; everything else kept, dictionaries and lists rebuilt
      item by item. */
  function ResolveCalls(v: Value, calls: map<string, Fn>, data: Value,
                        fetch: Value -> Value, apply: (Fn, Value) -> Value): (r: Result<Value, DbError>)
    ensures v.Str? && !StartsWith(v.s, CALL_PREFIX) ==> r == Success(v)
    ensures v.Str? && StartsWith(v.s, CALL_PREFIX) && ParseCall(v.s) !in calls ==>
              r == Failure(MissingCall(ParseCall(v.s)))
    ensures v.Str? && StartsWith(v.s, CALL_PREFIX) && ParseCall(v.s) in calls ==>
              r == Success(CallResult(calls[ParseCall(v.s)], data, apply))
    ensures !v.Str? && !v.List? && !v.Dict? ==> r == Success(v)
    ensures v.List? && r.Success? ==> r.value.List? && |r.value.items| == |v.items|
    ensures v.Dict? && r.Success? ==> r.value.Dict? && |r.value.entries| == |v.entries|
                                      && forall i | 0 <= i < |v.entries| :: r.value.entries[i].key == v.entries[i].key
    decreases v, 1
  {
    match v
    case Str(s) =>
      if StartsWith(s, CALL_PREFIX) then
        var id := ParseCall(s);
        if id in calls then Success(CallResult(calls[id], data, apply)) else Failure(MissingCall(id))
      else Success(v)
    case List(items) =>
      var rs := ResolveCallsItems(v, |items|, calls, data, fetch, apply);
      if rs.Success? then Success(List(rs.value)) else Failure(rs.error)
    case Dict(es) =>
      var rs := ResolveCallsEntries(v, |es|, calls, DataFor(es, data, fetch), fetch, apply);
      if rs.Success? then Success(Dict(rs.value)) else Failure(rs.error)
    case _ => Success(v)
  }

  /** The first `k` items of the list `parent`, each resolved. */
  function ResolveCallsItems(parent: Value, k: nat, calls: map<string, Fn>, data: Value,
                             fetch: Value -> Value, apply: (Fn, Value) -> Value): (r: Result<seq<Value>, DbError>)
    requires parent.List? && k <= |parent.items|
    ensures r.Success? ==> |r.value| == k
    decreases parent, 0, k
  {
    if k == 0 then Success([])
    else
      var rest := ResolveCallsItems(parent, k - 1, calls, data, fetch, apply);
      if rest.Failure? then rest
      else
        var x := ResolveCalls(parent.items[k - 1], calls, data, fetch, apply);
        if x.Failure? then Failure(x.error) else Success(rest.value + [x.value])
  }

  /** The first `k` entries of the dictionary `parent`, each value resolved,
      keys kept. */
  function ResolveCallsEntries(parent: Value, k: nat, calls: map<string, Fn>, data: Value,
                               fetch: Value -> Value, apply: (Fn, Value) -> Value): (r: Result<seq<Entry>, DbError>)
    requires parent.Dict? && k <= |parent.entries|
    ensures r.Success? ==> |r.value| == k && forall i | 0 <= i < k :: r.value[i].key == parent.entries[i].key
    decreases parent, 0, k
  {
    if k == 0 then Success([])
    else
      var rest := ResolveCallsEntries(parent, k - 1, calls, data, fetch, apply);
      if rest.Failure? then rest
      else
        var e := parent.entries[k - 1];
        var x := ResolveCalls(e.value, calls, data, fetch, apply);
        if x.Failure? then Failure(x.error) else Success(rest.value + [Entry(e.key, x.value)])
  }

  /** A query result with no `$CALL(` string anywhere in its values. */
  predicate MarkerFree(v: Value)
    decreases v
  {
    match v
    case Str(s) => !StartsWith(s, CALL_PREFIX)
    case List(xs) => forall i | 0 <= i < |xs| :: MarkerFree(xs[i])
    case Dict(es) => forall i | 0 <= i < |es| :: MarkerFree(es[i].value)
    case _ => true
  }

  /** `_resolve_calls` gives back a result without markers unchanged, whatever
      the call table, the data in scope, the files and the callables. */
  lemma {:induction false} MarkerFreeUnchanged(v: Value, calls: map<string, Fn>, data: Value,
                                               fetch: Value -> Value, apply: (Fn, Value) -> Value)
    requires MarkerFree(v)
    ensures ResolveCalls(v, calls, data, fetch, apply) == Success(v)
    decreases v, 1
  {
    match v {
      case List(xs) =>
        CallsItemsUnchanged(v, |xs|, calls, data, fetch, apply);
        assert xs[..|xs|] == xs;
      case Dict(es) =>
        CallsEntriesUnchanged(v, |es|, calls, DataFor(es, data, fetch), fetch, apply);
        assert es[..|es|] == es;
      case _ =>
    }
  }

  lemma {:induction false} CallsItemsUnchanged(parent: Value, k: nat, calls: map<string, Fn>, data: Value,
                                               fetch: Value -> Value, apply: (Fn, Value) -> Value)
    requires parent.List? && k <= |parent.items| && MarkerFree(parent)
    ensures ResolveCallsItems(parent, k, calls, data, fetch, apply) == Success(parent.items[..k])
    decreases parent, 0, k
  {
    if k > 0 {
      CallsItemsUnchanged(parent, k - 1, calls, data, fetch, apply);
      MarkerFreeUnchanged(parent.items[k - 1], calls, data, fetch, apply);
      PrefixGrows(parent.items, k);
    }
  }

  lemma {:induction false} CallsEntriesUnchanged(parent: Value, k: nat, calls: map<string, Fn>, data: Value,
                                                 fetch: Value -> Value, apply: (Fn, Value) -> Value)
    requires parent.Dict? && k <= |parent.entries| && MarkerFree(parent)
    ensures ResolveCallsEntries(parent, k, calls, data, fetch, apply) == Success(parent.entries[..k])
    decreases parent, 0, k
  {
    if k > 0 {
      CallsEntriesUnchanged(parent, k - 1, calls, data, fetch, apply);
      MarkerFreeUnchanged(parent.entries[k - 1].value, calls, data, fetch, apply);
      PrefixGrows(parent.entries, k);
    }
  }

  /** `_resolve_calls` on a list: it succeeds iff every item does, item `i` of
      the result is item `i` resolved with the same data, and on failure the
      error is that of the first item that fails. */
  lemma ResolveCallsItemwise(v: Value, calls: map<string, Fn>, data: Value,
                             fetch: Value -> Value, apply: (Fn, Value) -> Value)
    requires v.List?
    ensures var r := ResolveCalls(v, calls, data, fetch, apply);
            (r.Success? <==> forall i | 0 <= i < |v.items| :: ResolveCalls(v.items[i], calls, data, fetch, apply).Success?)
            && (r.Success? ==> forall i | 0 <= i < |v.items| ::
                                 ResolveCalls(v.items[i], calls, data, fetch, apply) == Success(r.value.items[i]))
            && (r.Failure? ==> exists i | 0 <= i < |v.items| ::
                                 ResolveCalls(v.items[i], calls, data, fetch, apply) == Failure(r.error)
                                 && forall j | 0 <= j < i :: ResolveCalls(v.items[j], calls, data, fetch, apply).Success?)
  {
    CallsItemsSucceed(v, |v.items|, calls, data, fetch, apply);
    CallsItemsFirstFailure(v, |v.items|, calls, data, fetch, apply);
  }

  lemma {:induction false} CallsItemsSucceed(parent: Value, k: nat, calls: map<string, Fn>, data: Value,
      fetch: Value -> Value, apply: (Fn, Value) -> Value)
    requires parent.List? && k <= |parent.items|
    ensures var r := ResolveCallsItems(parent, k, calls, data, fetch, apply);
            (r.Success? <==> forall i | 0 <= i < k :: ResolveCalls(parent.items[i], calls, data, fetch, apply).Success?)
            && (r.Success? ==> forall i | 0 <= i < k :: ResolveCalls(parent.items[i], calls, data, fetch, apply) == Success(r.value[i]))
    decreases k
  {
    if k > 0 {
      CallsItemsSucceed(parent, k - 1, calls, data, fetch, apply);
      var rest := ResolveCallsItems(parent, k - 1, calls, data, fetch, apply);
      if rest.Success? {
        var x := ResolveCalls(parent.items[k - 1], calls, data, fetch, apply);
        if x.Success? {
          assert ResolveCallsItems(parent, k, calls, data, fetch, apply) == Success(rest.value + [x.value]);
        }
      }
    }
  }

  lemma {:induction false} CallsItemsFirstFailure(parent: Value, k: nat, calls: map<string, Fn>, data: Value,
      fetch: Value -> Value, apply: (Fn, Value) -> Value)
    requires parent.List? && k <= |parent.items|
    ensures var r := ResolveCallsItems(parent, k, calls, data, fetch, apply);
            r.Failure? ==> exists i | 0 <= i < k :: ResolveCalls(parent.items[i], calls, data, fetch, apply) == Failure(r.error)
                                      && forall j | 0 <= j < i :: ResolveCalls(parent.items[j], calls, data, fetch, apply).Success?
    decreases k
  {
    if k > 0 {
      CallsItemsFirstFailure(parent, k - 1, calls, data, fetch, apply);
      var rest := ResolveCallsItems(parent, k - 1, calls, data, fetch, apply);
      if rest.Success? {
        CallsItemsSucceed(parent, k - 1, calls, data, fetch, apply);
        var x := ResolveCalls(parent.items[k - 1], calls, data, fetch, apply);
        if x.Failure? {
          assert ResolveCallsItems(parent, k, calls, data, fetch, apply) == Failure(x.error);
        }
      }
    }
  }

  /** `_resolve_calls` on a dictionary: keys are kept, it succeeds iff every
      value does, each value is resolved with the data the dictionary passes
      down (its file, else its `data`, else the data in scope), and on
      failure the error is that of the first value that fails. */
  lemma ResolveCallsEntrywise(v: Value, calls: map<string, Fn>, data: Value,
                              fetch: Value -> Value, apply: (Fn, Value) -> Value)
    requires v.Dict?
    ensures var r := ResolveCalls(v, calls, data, fetch, apply);
            var d := DataFor(v.entries, data, fetch);
            (r.Success? <==> forall i | 0 <= i < |v.entries| :: ResolveCalls(v.entries[i].value, calls, d, fetch, apply).Success?)
            && (r.Success? ==> forall i | 0 <= i < |v.entries| ::
                                 r.value.entries[i].key == v.entries[i].key
                                 && ResolveCalls(v.entries[i].value, calls, d, fetch, apply) == Success(r.value.entries[i].value))
            && (r.Failure? ==> exists i | 0 <= i < |v.entries| ::
                                 ResolveCalls(v.entries[i].value, calls, d, fetch, apply) == Failure(r.error)
                                 && forall j | 0 <= j < i :: ResolveCalls(v.entries[j].value, calls, d, fetch, apply).Success?)
  {
    var d := DataFor(v.entries, data, fetch);
    CallsEntriesSucceed(v, |v.entries|, calls, d, fetch, apply);
    CallsEntriesFirstFailure(v, |v.entries|, calls, d, fetch, apply);
  }

  lemma {:induction false} CallsEntriesSucceed(parent: Value, k: nat, calls: map<string, Fn>, data: Value,
      fetch: Value -> Value, apply: (Fn, Value) -> Value)
    requires parent.Dict? && k <= |parent.entries|
    ensures var r := ResolveCallsEntries(parent, k, calls, data, fetch, apply);
            (r.Success? <==> forall i | 0 <= i < k :: ResolveCalls(parent.entries[i].value, calls, data, fetch, apply).Success?)
            && (r.Success? ==> forall i | 0 <= i < k :: ResolveCalls(parent.entries[i].value, calls, data, fetch, apply) == Success(r.value[i].value))
    decreases k
  {
    if k > 0 {
      CallsEntriesSucceed(parent, k - 1, calls, data, fetch, apply);
      var rest := ResolveCallsEntries(parent, k - 1, calls, data, fetch, apply);
      if rest.Success? {
        var x := ResolveCalls(parent.entries[k - 1].value, calls, data, fetch, apply);
        if x.Success? {
          assert ResolveCallsEntries(parent, k, calls, data, fetch, apply) == Success(rest.value + [Entry(parent.entries[k - 1].key, x.value)]);
        }
      }
    }
  }

  lemma {:induction false} CallsEntriesFirstFailure(parent: Value, k: nat, calls: map<string, Fn>, data: Value,
      fetch: Value -> Value, apply: (Fn, Value) -> Value)
    requires parent.Dict? && k <= |parent.entries|
    ensures var r := ResolveCallsEntries(parent, k, calls, data, fetch, apply);
            r.Failure? ==> exists i | 0 <= i < k :: ResolveCalls(parent.entries[i].value, calls, data, fetch, apply) == Failure(r.error)
                                      && forall j | 0 <= j < i :: ResolveCalls(parent.entries[j].value, calls, data, fetch, apply).Success?
    decreases k
  {
    if k > 0 {
      CallsEntriesFirstFailure(parent, k - 1, calls, data, fetch, apply);
      var rest := ResolveCallsEntries(parent, k - 1, calls, data, fetch, apply);
      if rest.Success? {
        CallsEntriesSucceed(parent, k - 1, calls, data, fetch, apply);
        var x := ResolveCalls(parent.entries[k - 1].value, calls, data, fetch, apply);
        if x.Failure? {
          assert ResolveCallsEntries(parent, k, calls, data, fetch, apply) == Failure(x.error);
        }
      }
    }
  }

  /** The string a marker literal stands for resolves to the result of the
      callable registered under its id. */
  lemma MarkerResolves(id: string, calls: map<string, Fn>, data: Value,
                       fetch: Value -> Value, apply: (Fn, Value) -> Value)
    requires id in calls
    ensures ResolveCalls(Str(Marker(id)), calls, data, fetch, apply) == Success(CallResult(calls[id], data, apply))
  {
    MarkerRoundTrip(id);
  }

  // ---------------------------------------------------------------------
  // `_resolve_dict`

  predicate IsIllegal(k: Key) {
    k.Field? && StartsWith(k.name, "$") && k.name in ILLEGAL_AGGREGATION_KEYS
  }

  /** The error the loop of `_resolve_dict` raises at one entry, if any. */
  function EntryError(e: Entry): (err: Option<DbError>)
    ensures err == Some(CallableValue) <==> e.key.CallableKey? && e.value.Callable?
    ensures err == Some(ProjectNotDict) <==> e.key == Field("$project") && !e.value.Dict?
    ensures (err.Some? && err.value.Unsupported?) <==> IsIllegal(e.key)
    ensures err.Some? && err.value.Unsupported? ==> err.value.key == e.key.name
  {
    if e.key.CallableKey? then (if e.value.Callable? then Some(CallableValue) else None)
    else if e.key == Field("$project") then (if e.value.Dict? then None else Some(ProjectNotDict))
    else if IsIllegal(e.key) then Some(Unsupported(e.key.name))
    else None
  }

  /** The error of the first offending entry, in iteration order. */
  function FirstError(es: seq<Entry>): (err: Option<DbError>)
    ensures err.None? <==> forall i | 0 <= i < |es| :: EntryError(es[i]).None?
    ensures err.Some? ==> exists i | 0 <= i < |es| ::
              err == EntryError(es[i]) && forall j | 0 <= j < i :: EntryError(es[j]).None?
    decreases |es|
  {
    if es == [] then None
    else
      var prev := FirstError(Init(es));
      assert forall i | 0 <= i < |es| - 1 :: Init(es)[i] == es[i];
      if prev.Some? then prev else EntryError(Last(es))
  }

  /** The one entry the loop changes in place: a `$project` dictionary gets
      `_file_id` projected as well. */
  function FixEntry(e: Entry): (f: Entry)
    ensures f.key == e.key
    ensures e.key != Field("$project") || !e.value.Dict? ==> f == e
    ensures e.key == Field("$project") && e.value.Dict? ==>
              f.value.Dict? && KeySet(f.value.entries) == KeySet(e.value.entries) + {Field(KEY_FILE_ID)}
              && (UniqueKeys(e.value.entries) ==>
                    Get(f.value.entries, Field(KEY_FILE_ID)) == Some(Str("$" + KEY_FILE_ID)))
  {
    if e.key == Field("$project") && e.value.Dict?
    then Entry(e.key, Dict(Put(e.value.entries, Field(KEY_FILE_ID), Str("$" + KEY_FILE_ID))))
    else e
  }

  /** The dictionary `_resolve_dict` returns when there is no methods filter:
      its own argument, with the `$project` entry changed in place. */
  function FixProject(es: seq<Entry>): (r: seq<Entry>)
    ensures |r| == |es| && forall i | 0 <= i < |es| :: r[i] == FixEntry(es[i])
  {
    seq(|es|, i requires 0 <= i < |es| => FixEntry(es[i]))
  }

  /** The standard filter the loop builds: every non-callable key with the
      value the dictionary ends up holding for it, `$project` fixed. */
  function StandardOf(es: seq<Entry>): (r: seq<Entry>)
    ensures UniqueKeys(r)
    ensures KeySet(r) == set k | k in KeySet(es) && !k.CallableKey?
    ensures forall k: Key | !k.CallableKey? :: Get(r, k) == Get(FixProject(es), k)
    decreases |es|
  {
    if es == [] then []
    else
      assert KeySet(es) == KeySet(Init(es)) + {Last(es).key};
      var prev := StandardOf(Init(es));
      FixProjectGet(es);
      if Last(es).key.CallableKey? then prev else Put(prev, Last(es).key, FixEntry(Last(es)).value)
  }

  /** Looking a key up in the fixed dictionary: the last entry's key gives its
      fixed value, any other key what the entries before it give. */
  lemma FixProjectGet(es: seq<Entry>)
    requires |es| > 0
    ensures Get(FixProject(es), Last(es).key) == Some(FixEntry(Last(es)).value)
    ensures forall k | k != Last(es).key :: Get(FixProject(es), k) == Get(FixProject(Init(es)), k)
  {
    var before, e := FixProject(Init(es)), FixEntry(Last(es));
    assert FixProject(es) == before + [e];
    assert Init(before + [e]) == before && Last(before + [e]) == e;
    forall k | k != Last(es).key
      ensures Get(FixProject(es), k) == Get(before, k)
    {
      GetNotLast(before, k, e);
    }
  }

  /** The methods filter the loop builds. */
  function MethodsOf(es: seq<Entry>): (r: seq<Entry>)
    ensures UniqueKeys(r)
    ensures KeySet(r) == set k | k in KeySet(es) && k.CallableKey?
    ensures forall k: Key | k.CallableKey? :: Get(r, k) == Get(es, k)
    decreases |es|
  {
    if es == [] then []
    else
      assert KeySet(es) == KeySet(Init(es)) + {Last(es).key};
      var prev := MethodsOf(Init(es));
      if Last(es).key.CallableKey? then Put(prev, Last(es).key, Last(es).value)
      else
        assert forall k: Key | k.CallableKey? :: Get(es, k) == Get(Init(es), k);
        prev
  }

  /** `{'_id': {'$in': ids}}`. */
  function IdFilter(ids: seq<string>): Value {
    Dict([Entry(Field("_id"), Dict([Entry(Field("$in"), List(seq(|ids|, i requires 0 <= i < |ids| => Str(ids[i]))))]))])
  }

  /** The store query and the local evaluation of the methods filter: the ids
      of the stored documents that match the standard filter and pass the
      methods filter. */
  type Selector = (seq<Entry>, seq<Entry>) -> seq<string>

  /** `_resolve_dict` on a dictionary whose values are already resolved. */
  function ResolveDictSpec(plain: seq<Entry>, select: Selector): (r: Result<Value, DbError>)
    ensures r.Failure? <==> FirstError(plain).Some?
    ensures r.Failure? ==> r.error == FirstError(plain).value
    ensures r.Success? && (exists k :: k in KeySet(plain) && k.CallableKey?) ==>
              r.value == IdFilter(select(StandardOf(plain), MethodsOf(plain)))
    ensures r.Success? && (forall k | k in KeySet(plain) :: !k.CallableKey?) ==>
              r.value == Dict(FixProject(plain))
  {
    var err := FirstError(plain);
    if err.Some? then Failure(err.value)
    else
      var methods := MethodsOf(plain);
      if methods != [] then
        assert methods[0].key in KeySet(methods);
        Success(IdFilter(select(StandardOf(plain), methods)))
      else
        assert KeySet(methods) == {};
        Success(Dict(FixProject(plain)))
  }

  /** What one more iteration of the `_resolve_dict` loop adds. */
  lemma DictStep(plain: seq<Entry>, i: nat)
    requires i < |plain|
    ensures FirstError(plain[..i + 1]) == if FirstError(plain[..i]).Some? then FirstError(plain[..i]) else EntryError(plain[i])
    ensures StandardOf(plain[..i + 1]) == if plain[i].key.CallableKey? then StandardOf(plain[..i])
                                         else Put(StandardOf(plain[..i]), plain[i].key, FixEntry(plain[i]).value)
    ensures MethodsOf(plain[..i + 1]) == if plain[i].key.CallableKey? then Put(MethodsOf(plain[..i]), plain[i].key, plain[i].value)
                                        else MethodsOf(plain[..i])
  {
    assert Init(plain[..i + 1]) == plain[..i] && Last(plain[..i + 1]) == plain[i];
  }

  /** Once a prefix has raised, the whole loop raises the same error. */
  lemma {:induction false} FirstErrorPrefix(es: seq<Entry>, j: nat)
    requires j <= |es| && FirstError(es[..j]).Some?
    ensures FirstError(es) == FirstError(es[..j])
    decreases |es|
  {
    if j < |es| {
      assert Init(es)[..j] == es[..j];
      FirstErrorPrefix(Init(es), j);
    } else {
      assert es[..j] == es;
    }
  }

  lemma FixStep(plain: seq<Entry>, i: nat)
    requires i < |plain|
    ensures FixProject(plain[..i + 1]) + plain[i + 1..] == (FixProject(plain[..i]) + plain[i..])[i := FixEntry(plain[i])]
  {
  }

  /** The loop of `_resolve_dict` over the entries: it raises at the first
      entry in error, and otherwise builds the standard and methods filters
      and changes the `$project` entry in place. */
  method ScanEntries(plain: seq<Entry>) returns (err: Option<DbError>, d: seq<Entry>, standard: seq<Entry>, methods: seq<Entry>)
    ensures err == FirstError(plain)
    ensures err.None? ==> d == FixProject(plain) && standard == StandardOf(plain) && methods == MethodsOf(plain)
  {
    d := plain;
    standard := [];
    methods := [];
    for i := 0 to |plain|
      invariant FirstError(plain[..i]).None?
      invariant d == FixProject(plain[..i]) + plain[i..]
      invariant standard == StandardOf(plain[..i])
      invariant methods == MethodsOf(plain[..i])
    {
      DictStep(plain, i);
      FixStep(plain, i);
      var key, value := plain[i].key, plain[i].value;
      if key.CallableKey? {
        if value.Callable? {
          FirstErrorPrefix(plain, i + 1);
          return Some(CallableValue), d, standard, methods;
        }
        methods := Put(methods, key, value);
      } else if key == Field("$project") {
        if !value.Dict? {
          FirstErrorPrefix(plain, i + 1);
          return Some(ProjectNotDict), d, standard, methods;
        }
        var fixed := Dict(Put(value.entries, Field(KEY_FILE_ID), Str("$" + KEY_FILE_ID)));
        d := d[i := Entry(key, fixed)];
        standard := Put(standard, key, fixed);
      } else if StartsWith(key.name, "$") && key.name in ILLEGAL_AGGREGATION_KEYS {
        FirstErrorPrefix(plain, i + 1);
        return Some(Unsupported(key.name)), d, standard, methods;
      } else {
        standard := Put(standard, key, value);
      }
    }
    err := None;
    assert plain[..|plain|] == plain;
    assert d == FixProject(plain) by {
      assert plain[|plain|..] == [];
      assert FixProject(plain) + [] == FixProject(plain);
    }
  }

  /** `_resolve_dict`: scan the entries, then either the id filter of the
      selected documents or the dictionary itself. */
  method ResolveDict(plain: seq<Entry>, select: Selector) returns (r: Result<Value, DbError>)
    ensures r == ResolveDictSpec(plain, select)
  {
    var err, d, standard, methods := ScanEntries(plain);
    if err.Some? {
      return Failure(err.value);
    }
    if methods != [] {
      r := Success(IdFilter(select(standard, methods)));
    } else {
      r := Success(Dict(d));
    }
  }

  // ---------------------------------------------------------------------
  // `_resolve`

  /** The `n`-th call id handed out (a fresh uuid4 in the source): ids of
      different counts differ in length, so no id is handed out twice. */
  function CallId(n: nat): (id: string)
    ensures |id| == n + 1
  {
    seq(n + 1, _ => '#')
  }

  /** A result together with the callables registered, in order, while
      computing it (registered callables stay in the call table even when a
      later step raises). */
  datatype Traced<T> = Traced(result: Result<T, DbError>, fns: seq<Fn>)

  /** `_resolve` with the next call id `n`: callables become marker
      literals, lists and dictionary values are resolved item by item and a
      dictionary then goes through `_resolve_dict`; any other value is kept. */
  function ResolveSpec(e: Value, n: nat, select: Selector): (r: Traced<Value>)
    ensures r.result != Failure(CallableValue)
    ensures r.result.Success? ==> !r.result.value.Callable?
    ensures e.Callable? ==> r == Traced(Success(MarkerLiteral(CallId(n))), [e.f])
    ensures !e.Callable? && !e.List? && !e.Dict? ==> r == Traced(Success(e), [])
    ensures e.List? && r.result.Success? ==> r.result.value.List? && |r.result.value.items| == |e.items|
    decreases e, 2
  {
    match e
    case Callable(f) => Traced(Success(MarkerLiteral(CallId(n))), [f])
    case List(_) => ResolveListSpec(e, n, select)
    case Dict(_) => ResolveDictValueSpec(e, n, select)
    case _ => Traced(Success(e), [])
  }

  /** `_resolve` on a list: the items, left to right. */
  function ResolveListSpec(e: Value, n: nat, select: Selector): (r: Traced<Value>)
    requires e.List?
    ensures r.result != Failure(CallableValue)
    ensures r.result.Success? ==> r.result.value.List? && |r.result.value.items| == |e.items|
    decreases e, 1
  {
    var t := ResolveItemsSpec(e, |e.items|, n, select);
    Traced(if t.result.Success? then Success(List(t.result.value)) else Failure(t.result.error), t.fns)
  }

  /** `_resolve` on a dictionary: the values left to right, then
      `_resolve_dict` on the result. */
  function ResolveDictValueSpec(e: Value, n: nat, select: Selector): (r: Traced<Value>)
    requires e.Dict?
    ensures r.result != Failure(CallableValue)
    ensures r.result.Success? ==> !r.result.value.Callable?
    decreases e, 1
  {
    var t := ResolveEntriesSpec(e, |e.entries|, n, select);
    if t.result.Success? then
      var plain := t.result.value;
      assert FirstError(plain) != Some(CallableValue);
      Traced(ResolveDictSpec(plain, select), t.fns)
    else Traced(Failure(t.result.error), t.fns)
  }

  /** The first `k` items of the list `parent`, resolved left to right. */
  function ResolveItemsSpec(parent: Value, k: nat, n: nat, select: Selector): (r: Traced<seq<Value>>)
    requires parent.List? && k <= |parent.items|
    ensures r.result != Failure(CallableValue)
    ensures r.result.Success? ==> |r.result.value| == k
    decreases parent, 0, k
  {
    if k == 0 then Traced(Success([]), [])
    else
      var prev := ResolveItemsSpec(parent, k - 1, n, select);
      if prev.result.Failure? then prev
      else
        var x := ResolveSpec(parent.items[k - 1], n + |prev.fns|, select);
        Traced(if x.result.Success? then Success(prev.result.value + [x.result.value]) else Failure(x.result.error),
               prev.fns + x.fns)
  }

  /** The first `k` entries of the dictionary `parent`, values resolved left
      to right, keys kept. */
  function ResolveEntriesSpec(parent: Value, k: nat, n: nat, select: Selector): (r: Traced<seq<Entry>>)
    requires parent.Dict? && k <= |parent.entries|
    ensures r.result != Failure(CallableValue)
    ensures r.result.Success? ==> |r.result.value| == k
    ensures r.result.Success? ==> forall i | 0 <= i < k ::
              r.result.value[i].key == parent.entries[i].key && !r.result.value[i].value.Callable?
    decreases parent, 0, k
  {
    if k == 0 then Traced(Success([]), [])
    else
      var prev := ResolveEntriesSpec(parent, k - 1, n, select);
      if prev.result.Failure? then prev
      else
        var e := parent.entries[k - 1];
        var x := ResolveSpec(e.value, n + |prev.fns|, select);
        Traced(if x.result.Success? then Success(prev.result.value + [Entry(e.key, x.result.value)]) else Failure(x.result.error),
               prev.fns + x.fns)
  }

  // ---------------------------------------------------------------------
  // Properties of `_resolve`

  /** A marker literal put back as the callable its id stands for. */
  function Restore(v: Value, calls: map<string, Fn>): Value
    decreases v
  {
    match v
    case List(xs) => List(seq(|xs|, i requires 0 <= i < |xs| => Restore(xs[i], calls)))
    case Dict(es) =>
      if |es| == 1 && es[0].key == Field("$literal") && es[0].value.Str?
         && StartsWith(es[0].value.s, CALL_PREFIX) && ParseCall(es[0].value.s) in calls
      then Callable(calls[ParseCall(es[0].value.s)])
      else Dict(seq(|es|, i requires 0 <= i < |es| => Entry(es[i].key, Restore(es[i].value, calls))))
    case _ => v
  }

  /** An expression `_resolve` hands back unchanged apart from its
      callables: no dictionary in it has a callable key or a `$project`,
      `$literal`, `$group` or `$out` key (other operators such as `$gt` are
      allowed). */
  predicate Plain(v: Value)
    decreases v
  {
    match v
    case List(xs) => forall i | 0 <= i < |xs| :: Plain(xs[i])
    case Dict(es) => forall i | 0 <= i < |es| :: PlainKey(es[i].key) && Plain(es[i].value)
    case _ => true
  }

  predicate PlainKey(k: Key) {
    k.Field? && k.name != "$project" && k.name != "$literal" && !IsIllegal(k)
  }

  /** The call table holds `fns` under consecutive ids from `n`. */
  predicate Holds(calls: map<string, Fn>, fns: seq<Fn>, n: nat) {
    forall m | n <= m < n + |fns| :: CallId(m) in calls && calls[CallId(m)] == fns[m - n]
  }

  lemma HoldsSplit(calls: map<string, Fn>, a: seq<Fn>, b: seq<Fn>, n: nat)
    requires Holds(calls, a + b, n)
    ensures Holds(calls, a, n) && Holds(calls, b, n + |a|)
  {
    forall m | n + |a| <= m < n + |a| + |b| ensures CallId(m) in calls && calls[CallId(m)] == b[m - n - |a|] {
      assert (a + b)[m - n] == b[m - n - |a|];
    }
  }

  /** Round trip: resolving a `Plain` expression succeeds,
      and putting the registered callables back in place of the markers gives
      the expression again. `t` is the trace of `_resolve` on `e`. */
  lemma {:induction false} ResolveRestores(e: Value, n: nat, select: Selector, calls: map<string, Fn>, t: Traced<Value>)
    requires t == ResolveSpec(e, n, select)
    requires Plain(e) && Holds(calls, t.fns, n)
    ensures t.result.Success? && Restore(t.result.value, calls) == e
    decreases e, 1
  {
    match e {
      case Callable(f) =>
        MarkerRoundTrip(CallId(n));
        assert CallId(n) in calls;
      case List(xs) =>
        var ti := ResolveItemsSpec(e, |xs|, n, select);
        assert t == ResolveListSpec(e, n, select);
        RestoresItems(e, |xs|, n, select, calls, ti);
        RestoreList(xs, ti.result.value, calls);
      case Dict(es) =>
        var te := ResolveEntriesSpec(e, |es|, n, select);
        assert t == ResolveDictValueSpec(e, n, select);
        RestoresEntries(e, |es|, n, select, calls, te);
        PlainDictResolves(e, te.result.value, select);
        RestoreDict(e, te.result.value, calls);
      case _ =>
    }
  }

  lemma RestoreList(xs: seq<Value>, items: seq<Value>, calls: map<string, Fn>)
    requires |items| == |xs| && forall i | 0 <= i < |xs| :: Restore(items[i], calls) == xs[i]
    ensures Restore(List(items), calls) == List(xs)
  {
    assert Restore(List(items), calls).items == xs;
  }

  /** The keys of a `Plain` dictionary raise nothing, name no
      callable and leave `_resolve_dict` nothing to fix. */
  lemma PlainDictResolves(e: Value, plain: seq<Entry>, select: Selector)
    requires e.Dict? && Plain(e) && |plain| == |e.entries|
    requires forall i | 0 <= i < |plain| :: plain[i].key == e.entries[i].key
    ensures ResolveDictSpec(plain, select) == Success(Dict(plain))
  {
    assert forall i | 0 <= i < |plain| :: PlainKey(plain[i].key);
    assert forall i | 0 <= i < |plain| :: EntryError(plain[i]).None?;
    assert forall k | k in KeySet(plain) :: !k.CallableKey?;
    assert FixProject(plain) == plain;
  }

  lemma RestoreDict(e: Value, plain: seq<Entry>, calls: map<string, Fn>)
    requires e.Dict? && Plain(e) && |plain| == |e.entries|
    requires forall i | 0 <= i < |plain| :: plain[i].key == e.entries[i].key
    requires forall i | 0 <= i < |plain| :: Restore(plain[i].value, calls) == e.entries[i].value
    ensures Restore(Dict(plain), calls) == e
  {
    if |plain| == 1 {
      assert PlainKey(e.entries[0].key);
    }
    assert Restore(Dict(plain), calls).entries == e.entries;
  }

  /** The round trip for the first `k` items of a list; `t` is their trace. */
  lemma {:induction false} RestoresItems(parent: Value, k: nat, n: nat, select: Selector, calls: map<string, Fn>,
                                         t: Traced<seq<Value>>)
    requires parent.List? && k <= |parent.items| && Plain(parent)
    requires t == ResolveItemsSpec(parent, k, n, select) && Holds(calls, t.fns, n)
    ensures t.result.Success? && forall i | 0 <= i < k :: Restore(t.result.value[i], calls) == parent.items[i]
    decreases parent, 0, k, 1
  {
    if k > 0 {
      var prev := ResolveItemsSpec(parent, k - 1, n, select);
      var x := ResolveSpec(parent.items[k - 1], n + |prev.fns|, select);
      ItemsGrow(parent, k, n, select, calls, prev, x, t);
      RestoresItems(parent, k - 1, n, select, calls, prev);
      RestoresLastItem(parent, k, n, select, calls, prev.result.value, prev.fns, x);
    }
  }

  /** The last of `k` items restores, given that the first `k - 1` do. */
  lemma RestoresLastItem(parent: Value, k: nat, n: nat, select: Selector, calls: map<string, Fn>,
                         prev: seq<Value>, fns: seq<Fn>, x: Traced<Value>)
    requires parent.List? && 0 < k <= |parent.items| && Plain(parent) && |prev| == k - 1
    requires x == ResolveSpec(parent.items[k - 1], n + |fns|, select) && Holds(calls, x.fns, n + |fns|)
    requires forall i | 0 <= i < k - 1 :: Restore(prev[i], calls) == parent.items[i]
    ensures x.result.Success?
    ensures forall i | 0 <= i < k :: Restore((prev + [x.result.value])[i], calls) == parent.items[i]
    decreases parent, 0, k, 0
  {
    PlainItem(parent, k - 1);
    ResolveRestores(parent.items[k - 1], n + |fns|, select, calls, x);
    RestoredAppendItem(parent.items, k, prev, x.result.value, calls);
  }

  /** How the trace of `k` items extends the trace of `k - 1`. */
  lemma ItemsGrow(parent: Value, k: nat, n: nat, select: Selector, calls: map<string, Fn>,
                  prev: Traced<seq<Value>>, x: Traced<Value>, t: Traced<seq<Value>>)
    requires parent.List? && 0 < k <= |parent.items|
    requires prev == ResolveItemsSpec(parent, k - 1, n, select) && t == ResolveItemsSpec(parent, k, n, select)
    requires x == ResolveSpec(parent.items[k - 1], n + |prev.fns|, select)
    requires Holds(calls, t.fns, n)
    ensures prev.result.Failure? ==> t == prev
    ensures prev.result.Success? ==> t.fns == prev.fns + x.fns
    ensures Holds(calls, prev.fns, n) && (prev.result.Success? ==> Holds(calls, x.fns, n + |prev.fns|))
    ensures prev.result.Success? && x.result.Success? ==> t.result == Success(prev.result.value + [x.result.value])
  {
    if prev.result.Success? {
      HoldsSplit(calls, prev.fns, x.fns, n);
    }
  }

  lemma PlainItem(parent: Value, i: nat)
    requires parent.List? && i < |parent.items| && Plain(parent)
    ensures Plain(parent.items[i])
  {
  }

  lemma RestoredAppendItem(xs: seq<Value>, k: nat, prev: seq<Value>, v: Value, calls: map<string, Fn>)
    requires 0 < k <= |xs| && |prev| == k - 1
    requires forall i | 0 <= i < k - 1 :: Restore(prev[i], calls) == xs[i]
    requires Restore(v, calls) == xs[k - 1]
    ensures forall i | 0 <= i < k :: Restore((prev + [v])[i], calls) == xs[i]
  {
  }

  /** The round trip for the first `k` entries of a dictionary; `t` is their
      trace. */
  lemma {:induction false} RestoresEntries(parent: Value, k: nat, n: nat, select: Selector, calls: map<string, Fn>,
                                           t: Traced<seq<Entry>>)
    requires parent.Dict? && k <= |parent.entries| && Plain(parent)
    requires t == ResolveEntriesSpec(parent, k, n, select) && Holds(calls, t.fns, n)
    ensures t.result.Success?
    ensures forall i | 0 <= i < k :: Restore(t.result.value[i].value, calls) == parent.entries[i].value
    decreases parent, 0, k, 1
  {
    if k > 0 {
      var prev := ResolveEntriesSpec(parent, k - 1, n, select);
      var x := ResolveSpec(parent.entries[k - 1].value, n + |prev.fns|, select);
      EntriesGrow(parent, k, n, select, calls, prev, x, t);
      RestoresEntries(parent, k - 1, n, select, calls, prev);
      RestoresLastEntry(parent, k, n, select, calls, prev.result.value, prev.fns, x);
      assert t.result == Success(prev.result.value + [Entry(parent.entries[k - 1].key, x.result.value)]);
    }
  }

  /** The last of `k` entries restores, given that the first `k - 1` do. */
  lemma RestoresLastEntry(parent: Value, k: nat, n: nat, select: Selector, calls: map<string, Fn>,
                          prev: seq<Entry>, fns: seq<Fn>, x: Traced<Value>)
    requires parent.Dict? && 0 < k <= |parent.entries| && Plain(parent) && |prev| == k - 1
    requires x == ResolveSpec(parent.entries[k - 1].value, n + |fns|, select) && Holds(calls, x.fns, n + |fns|)
    requires forall i | 0 <= i < k - 1 :: Restore(prev[i].value, calls) == parent.entries[i].value
    ensures x.result.Success?
    ensures forall i | 0 <= i < k :: Restore((prev + [Entry(parent.entries[k - 1].key, x.result.value)])[i].value, calls)
                                     == parent.entries[i].value
    decreases parent, 0, k, 0
  {
    PlainChild(parent, k - 1);
    ResolveRestores(parent.entries[k - 1].value, n + |fns|, select, calls, x);
    RestoredAppend(parent.entries, k, prev, x.result.value, calls);
  }

  /** How the trace of `k` entries extends the trace of `k - 1`. */
  lemma EntriesGrow(parent: Value, k: nat, n: nat, select: Selector, calls: map<string, Fn>,
                    prev: Traced<seq<Entry>>, x: Traced<Value>, t: Traced<seq<Entry>>)
    requires parent.Dict? && 0 < k <= |parent.entries|
    requires prev == ResolveEntriesSpec(parent, k - 1, n, select) && t == ResolveEntriesSpec(parent, k, n, select)
    requires x == ResolveSpec(parent.entries[k - 1].value, n + |prev.fns|, select)
    requires Holds(calls, t.fns, n)
    ensures prev.result.Failure? ==> t == prev
    ensures prev.result.Success? ==> t.fns == prev.fns + x.fns
    ensures Holds(calls, prev.fns, n) && (prev.result.Success? ==> Holds(calls, x.fns, n + |prev.fns|))
    ensures prev.result.Success? && x.result.Success? ==>
              t.result == Success(prev.result.value + [Entry(parent.entries[k - 1].key, x.result.value)])
  {
    if prev.result.Success? {
      HoldsSplit(calls, prev.fns, x.fns, n);
    }
  }

  lemma PlainChild(parent: Value, i: nat)
    requires parent.Dict? && i < |parent.entries| && Plain(parent)
    ensures Plain(parent.entries[i].value)
  {
  }

  lemma RestoredAppend(es: seq<Entry>, k: nat, prev: seq<Entry>, v: Value, calls: map<string, Fn>)
    requires 0 < k <= |es| && |prev| == k - 1
    requires forall i | 0 <= i < k - 1 :: Restore(prev[i].value, calls) == es[i].value
    requires Restore(v, calls) == es[k - 1].value
    ensures forall i | 0 <= i < k :: Restore((prev + [Entry(es[k - 1].key, v)])[i].value, calls) == es[i].value
  {
  }

  // ---------------------------------------------------------------------
  // Resolving a resolved value again

  /** A value `_resolve` leaves as it is: no callable in it, and every
      dictionary in it is one whose entries `_resolve_dict` neither rejects,
      nor moves to the methods filter, nor changes. */
  predicate Settled(v: Value)
    decreases v
  {
    match v
    case Callable(_) => false
    case List(xs) => forall i | 0 <= i < |xs| :: Settled(xs[i])
    case Dict(es) => forall i | 0 <= i < |es| :: SettledEntry(es[i]) && Settled(es[i].value)
    case _ => true
  }

  predicate SettledEntry(e: Entry) {
    !e.key.CallableKey? && EntryError(e).None? && FixEntry(e) == e
  }

  /** Storing the same value under the same key twice is storing it once. */
  lemma PutTwice(es: seq<Entry>, k: Key, v: Value)
    ensures Put(Put(es, k, v), k, v) == Put(es, k, v)
  {
    var r := Put(es, k, v);
    var j := FirstIndex(r, k);
    if k in KeySet(es) {
      var i := FirstIndex(es, k);
      assert r == es[i := Entry(k, v)];
      assert forall x | 0 <= x < i :: r[x] == es[x];
      assert r[i].key == k;
      assert j == i;
    } else {
      assert r == es + [Entry(k, v)];
      assert forall x | 0 <= x < |es| :: es[x].key in KeySet(es) && r[x] == es[x];
      assert r[|es|].key == k;
      assert j == |es|;
    }
    assert r[j := Entry(k, v)] == r;
  }

  /** The marker-free dictionary `{'_id': {'$in': ids}}` is settled. */
  lemma IdFilterSettled(ids: seq<string>)
    ensures Settled(IdFilter(ids))
  {
    var inner := IdFilter(ids).entries[0].value;
    assert "_id"[..1][0] == '_';
    assert "$in" != "$group" && "$in" != "$out";
    assert Settled(inner.entries[0].value);
    assert SettledEntry(inner.entries[0]);
  }

  /** The entry `_resolve_dict` adds to a `$project` dictionary is settled. */
  lemma FileIdEntrySettled()
    ensures SettledEntry(Entry(Field(KEY_FILE_ID), Str("$" + KEY_FILE_ID)))
  {
    assert KEY_FILE_ID[..1][0] == '_';
  }

  /** A `$project` dictionary of settled values, with `_file_id` added, is
      settled. */
  lemma ProjectSettled(d: Value)
    requires d.Dict? && Settled(d)
    ensures Settled(Dict(Put(d.entries, Field(KEY_FILE_ID), Str("$" + KEY_FILE_ID))))
  {
    var r := Put(d.entries, Field(KEY_FILE_ID), Str("$" + KEY_FILE_ID));
    FileIdEntrySettled();
    forall i | 0 <= i < |r| ensures SettledEntry(r[i]) && Settled(r[i].value) {
      if r[i] in d.entries {
        var j :| 0 <= j < |d.entries| && d.entries[j] == r[i];
      }
    }
  }

  /** One entry of a dictionary `_resolve_dict` accepts, after the loop has
      changed it, is settled. */
  lemma FixedEntrySettled(e: Entry)
    requires !e.key.CallableKey? && EntryError(e).None? && Settled(e.value)
    ensures SettledEntry(FixEntry(e)) && Settled(FixEntry(e).value)
  {
    if e.key == Field("$project") {
      PutTwice(e.value.entries, Field(KEY_FILE_ID), Str("$" + KEY_FILE_ID));
      ProjectSettled(e.value);
    }
  }

  /** What `_resolve_dict` returns for settled values is settled. */
  lemma DictSettles(plain: seq<Entry>, select: Selector)
    requires FirstError(plain).None? && forall i | 0 <= i < |plain| :: Settled(plain[i].value)
    ensures ResolveDictSpec(plain, select).Success? && Settled(ResolveDictSpec(plain, select).value)
  {
    var methods := MethodsOf(plain);
    if methods != [] {
      IdFilterSettled(select(StandardOf(plain), methods));
    } else {
      assert KeySet(methods) == {};
      FixProjectSettled(plain);
    }
  }

  lemma FixProjectSettled(plain: seq<Entry>)
    requires FirstError(plain).None? && forall i | 0 <= i < |plain| :: Settled(plain[i].value)
    requires forall k | k in KeySet(plain) :: !k.CallableKey?
    ensures Settled(Dict(FixProject(plain)))
  {
    var r := FixProject(plain);
    forall i | 0 <= i < |r| ensures SettledEntry(r[i]) && Settled(r[i].value) {
      assert plain[i].key in KeySet(plain);
      FixedEntrySettled(plain[i]);
    }
  }

  /** `_resolve_dict` returns a dictionary of settled entries unchanged. */
  lemma SettledDictResolves(es: seq<Entry>, select: Selector)
    requires forall i | 0 <= i < |es| :: SettledEntry(es[i])
    ensures ResolveDictSpec(es, select) == Success(Dict(es))
  {
    assert forall k | k in KeySet(es) :: !k.CallableKey?;
    assert FixProject(es) == es;
  }

  /** Whatever `_resolve` returns is settled. `t` is its trace. */
  lemma {:induction false} ResolveSettles(e: Value, n: nat, select: Selector, t: Traced<Value>)
    requires t == ResolveSpec(e, n, select) && t.result.Success?
    ensures Settled(t.result.value)
    decreases e, 1
  {
    match e {
      case List(xs) =>
        var ti := ResolveItemsSpec(e, |xs|, n, select);
        assert t == ResolveListSpec(e, n, select);
        ItemsSettle(e, |xs|, n, select, ti);
      case Dict(es) =>
        var te := ResolveEntriesSpec(e, |es|, n, select);
        assert t == ResolveDictValueSpec(e, n, select);
        EntriesSettle(e, |es|, n, select, te);
        DictSettles(te.result.value, select);
      case _ =>
    }
  }

  lemma {:induction false} ItemsSettle(parent: Value, k: nat, n: nat, select: Selector, t: Traced<seq<Value>>)
    requires parent.List? && k <= |parent.items| && t == ResolveItemsSpec(parent, k, n, select)
    ensures t.result.Success? ==> forall i | 0 <= i < k :: Settled(t.result.value[i])
    decreases parent, 0, k
  {
    if k > 0 {
      var prev := ResolveItemsSpec(parent, k - 1, n, select);
      var x := ResolveSpec(parent.items[k - 1], n + |prev.fns|, select);
      ItemsExtend(parent, k, n, select, prev, x, t);
      ItemsSettle(parent, k - 1, n, select, prev);
      if t.result.Success? {
        ResolveSettles(parent.items[k - 1], n + |prev.fns|, select, x);
      }
    }
  }

  lemma {:induction false} EntriesSettle(parent: Value, k: nat, n: nat, select: Selector, t: Traced<seq<Entry>>)
    requires parent.Dict? && k <= |parent.entries| && t == ResolveEntriesSpec(parent, k, n, select)
    ensures t.result.Success? ==> forall i | 0 <= i < k :: Settled(t.result.value[i].value)
    decreases parent, 0, k
  {
    if k > 0 {
      var prev := ResolveEntriesSpec(parent, k - 1, n, select);
      var x := ResolveSpec(parent.entries[k - 1].value, n + |prev.fns|, select);
      EntriesExtend(parent, k, n, select, prev, x, t);
      EntriesSettle(parent, k - 1, n, select, prev);
      if t.result.Success? {
        ResolveSettles(parent.entries[k - 1].value, n + |prev.fns|, select, x);
      }
    }
  }

  /** A settled value resolves to itself, registers no callable and raises
      nothing, whatever the next call id and the store. */
  lemma {:induction false} SettledResolvesToItself(v: Value, n: nat, select: Selector, t: Traced<Value>)
    requires t == ResolveSpec(v, n, select) && Settled(v)
    ensures t == Traced(Success(v), [])
    decreases v, 1
  {
    match v {
      case List(xs) =>
        var ti := ResolveItemsSpec(v, |xs|, n, select);
        assert t == ResolveListSpec(v, n, select);
        SettledItems(v, |xs|, n, select, ti);
        assert xs[..|xs|] == xs;
      case Dict(es) =>
        var te := ResolveEntriesSpec(v, |es|, n, select);
        assert t == ResolveDictValueSpec(v, n, select);
        SettledEntries(v, |es|, n, select, te);
        assert es[..|es|] == es;
        SettledDictResolves(es, select);
      case _ =>
    }
  }

  lemma {:induction false} SettledItems(parent: Value, k: nat, n: nat, select: Selector, t: Traced<seq<Value>>)
    requires parent.List? && k <= |parent.items| && Settled(parent) && t == ResolveItemsSpec(parent, k, n, select)
    ensures t == Traced(Success(parent.items[..k]), [])
    decreases parent, 0, k
  {
    if k > 0 {
      var prev := ResolveItemsSpec(parent, k - 1, n, select);
      var x := ResolveSpec(parent.items[k - 1], n + |prev.fns|, select);
      ItemsExtend(parent, k, n, select, prev, x, t);
      SettledItems(parent, k - 1, n, select, prev);
      SettledResolvesToItself(parent.items[k - 1], n + |prev.fns|, select, x);
      PrefixGrows(parent.items, k);
    }
  }

  lemma {:induction false} SettledEntries(parent: Value, k: nat, n: nat, select: Selector, t: Traced<seq<Entry>>)
    requires parent.Dict? && k <= |parent.entries| && Settled(parent) && t == ResolveEntriesSpec(parent, k, n, select)
    ensures t == Traced(Success(parent.entries[..k]), [])
    decreases parent, 0, k
  {
    if k > 0 {
      var prev := ResolveEntriesSpec(parent, k - 1, n, select);
      var x := ResolveSpec(parent.entries[k - 1].value, n + |prev.fns|, select);
      EntriesExtend(parent, k, n, select, prev, x, t);
      SettledEntries(parent, k - 1, n, select, prev);
      SettledResolvesToItself(parent.entries[k - 1].value, n + |prev.fns|, select, x);
      PrefixGrows(parent.entries, k);
    }
  }

  lemma PrefixGrows<T>(s: seq<T>, k: nat)
    requires 0 < k <= |s|
    ensures s[..k - 1] + [s[k - 1]] == s[..k]
  {
  }

  /** How the trace of `k` items extends the trace of `k - 1`. */
  lemma ItemsExtend(parent: Value, k: nat, n: nat, select: Selector,
                    prev: Traced<seq<Value>>, x: Traced<Value>, t: Traced<seq<Value>>)
    requires parent.List? && 0 < k <= |parent.items|
    requires prev == ResolveItemsSpec(parent, k - 1, n, select) && t == ResolveItemsSpec(parent, k, n, select)
    requires x == ResolveSpec(parent.items[k - 1], n + |prev.fns|, select)
    ensures prev.result.Failure? ==> t == prev
    ensures prev.result.Success? ==>
              t == Traced(if x.result.Success? then Success(prev.result.value + [x.result.value]) else Failure(x.result.error),
                          prev.fns + x.fns)
  {
  }

  /** How the trace of `k` entries extends the trace of `k - 1`. */
  lemma EntriesExtend(parent: Value, k: nat, n: nat, select: Selector,
                      prev: Traced<seq<Entry>>, x: Traced<Value>, t: Traced<seq<Entry>>)
    requires parent.Dict? && 0 < k <= |parent.entries|
    requires prev == ResolveEntriesSpec(parent, k - 1, n, select) && t == ResolveEntriesSpec(parent, k, n, select)
    requires x == ResolveSpec(parent.entries[k - 1].value, n + |prev.fns|, select)
    ensures prev.result.Failure? ==> t == prev
    ensures prev.result.Success? ==>
              t == Traced(if x.result.Success? then Success(prev.result.value + [Entry(parent.entries[k - 1].key, x.result.value)])
                          else Failure(x.result.error), prev.fns + x.fns)
  {
  }

  /** Idempotence: resolving what `_resolve` returned gives it back and
      registers nothing more, so the second `_resolve` that `_resolve_dict`
      applies to each value it files changes nothing. */
  lemma ResolveTwice(e: Value, n: nat, m: nat, select: Selector, select': Selector)
    requires ResolveSpec(e, n, select).result.Success?
    ensures ResolveSpec(ResolveSpec(e, n, select).result.value, m, select') ==
              Traced(Success(ResolveSpec(e, n, select).result.value), [])
  {
    var t := ResolveSpec(e, n, select);
    ResolveSettles(e, n, select, t);
    SettledResolvesToItself(t.result.value, m, select', ResolveSpec(t.result.value, m, select'));
  }

  /** From the call table `c0` with next id `n0` to `c1` with next id `n1`,
      exactly the callables `added` were registered, in order, under the
      next ids, and no earlier entry changed. */
  ghost predicate Extended(c0: map<string, Fn>, n0: nat, added: seq<Fn>, c1: map<string, Fn>, n1: nat) {
    && n1 == n0 + |added|
    && (forall id | id in c0 :: id in c1 && c1[id] == c0[id])
    && (forall m | n0 <= m < n1 :: CallId(m) in c1 && c1[CallId(m)] == added[m - n0])
    && (forall id | id in c1 && id !in c0 :: n0 < |id| <= n1)
  }

  /** Registering one callable under the next id. */
  lemma ExtendedOne(c0: map<string, Fn>, n0: nat, f: Fn)
    requires forall id | id in c0 :: |id| <= n0
    ensures Extended(c0, n0, [f], c0[CallId(n0) := f], n0 + 1)
  {
  }

  /** Two registration runs in a row are one run. */
  lemma ExtendedTrans(c0: map<string, Fn>, n0: nat, a: seq<Fn>, c1: map<string, Fn>, n1: nat,
                      b: seq<Fn>, c2: map<string, Fn>, n2: nat)
    requires forall id | id in c0 :: |id| <= n0
    requires Extended(c0, n0, a, c1, n1) && Extended(c1, n1, b, c2, n2)
    ensures Extended(c0, n0, a + b, c2, n2)
  {
    forall m | n0 <= m < n2 ensures CallId(m) in c2 && c2[CallId(m)] == (a + b)[m - n0] {
      if m < n1 {
        assert CallId(m) in c1;
      }
    }
  }

  /** One more item of a list that resolved so far. */
  lemma ItemsStep(parent: Value, i: nat, n: nat, select: Selector, prev: seq<Value>, fns: seq<Fn>, x: Traced<Value>,
                  t: Traced<seq<Value>>)
    requires parent.List? && i < |parent.items|
    requires ResolveItemsSpec(parent, i, n, select) == Traced(Success(prev), fns)
    requires x == ResolveSpec(parent.items[i], n + |fns|, select)
    requires t == ResolveItemsSpec(parent, i + 1, n, select)
    ensures t == Traced(if x.result.Success? then Success(prev + [x.result.value]) else Failure(x.result.error), fns + x.fns)
  {
  }

  /** One more entry of a dictionary that resolved so far. */
  lemma EntriesStep(parent: Value, i: nat, n: nat, select: Selector, prev: seq<Entry>, fns: seq<Fn>, x: Traced<Value>,
                    t: Traced<seq<Entry>>)
    requires parent.Dict? && i < |parent.entries|
    requires ResolveEntriesSpec(parent, i, n, select) == Traced(Success(prev), fns)
    requires x == ResolveSpec(parent.entries[i].value, n + |fns|, select)
    requires t == ResolveEntriesSpec(parent, i + 1, n, select)
    ensures t == Traced(if x.result.Success? then Success(prev + [Entry(parent.entries[i].key, x.result.value)])
                      else Failure(x.result.error), fns + x.fns)
  {
  }

  lemma {:induction false} ItemsFailureStable(parent: Value, j: nat, k: nat, n: nat, select: Selector)
    requires parent.List? && j <= k <= |parent.items|
    requires ResolveItemsSpec(parent, j, n, select).result.Failure?
    ensures ResolveItemsSpec(parent, k, n, select) == ResolveItemsSpec(parent, j, n, select)
    decreases k
  {
    if k > j {
      ItemsFailureStable(parent, j, k - 1, n, select);
    }
  }

  lemma {:induction false} EntriesFailureStable(parent: Value, j: nat, k: nat, n: nat, select: Selector)
    requires parent.Dict? && j <= k <= |parent.entries|
    requires ResolveEntriesSpec(parent, j, n, select).result.Failure?
    ensures ResolveEntriesSpec(parent, k, n, select) == ResolveEntriesSpec(parent, j, n, select)
    decreases k
  {
    if k > j {
      EntriesFailureStable(parent, j, k - 1, n, select);
    }
  }

  /** The call dictionary that `_resolve` fills: call id to callable. */
  class CallTable {
    var calls: map<string, Fn>
    var issued: nat

    constructor ()
      ensures calls == map[] && issued == 0
    {
      calls := map[];
      issued := 0;
    }

    /** Every id in the table was handed out before the next one. */
    ghost predicate Valid()
      reads this
    {
      forall id | id in calls :: |id| <= issued
    }

    /** `call_dict[call_id] = expr` under a fresh id. */
    method Register(f: Fn) returns (id: string)
      requires Valid()
      modifies this
      ensures Valid()
      ensures id == CallId(old(issued)) && id !in old(calls)
      ensures calls == old(calls)[id := f] && issued == old(issued) + 1
    {
      id := CallId(issued);
      calls := calls[id := f];
      issued := issued + 1;
    }

    /** `_resolve(expr, call_dict)`; `added` are the callables it
        registers, in order. */
    method Resolve(e: Value, select: Selector) returns (r: Result<Value, DbError>, ghost added: seq<Fn>)
      requires Valid()
      modifies this
      ensures Valid() && Extended(old(calls), old(issued), added, calls, issued)
      ensures ResolveSpec(e, old(issued), select) == Traced(r, added)
      decreases e, 2
    {
      match e {
        case Callable(f) =>
          ExtendedOne(calls, issued, f);
          var id := Register(f);
          r, added := Success(MarkerLiteral(id)), [f];
        case List(xs) =>
          var items;
          items, added := ResolveItems(e, select);
          r := if items.Success? then Success(List(items.value)) else Failure(items.error);
        case Dict(es) =>
          var plain;
          plain, added := ResolveEntries(e, select);
          if plain.Success? {
            r := ResolveDict(plain.value, select);
          } else {
            r := Failure(plain.error);
          }
        case _ =>
          r, added := Success(e), [];
      }
    }

    /** The list comprehension of `_resolve`. */
    method ResolveItems(parent: Value, select: Selector) returns (r: Result<seq<Value>, DbError>, ghost added: seq<Fn>)
      requires parent.List? && Valid()
      modifies this
      ensures Valid() && Extended(old(calls), old(issued), added, calls, issued)
      ensures ResolveItemsSpec(parent, |parent.items|, old(issued), select) == Traced(r, added)
      decreases parent, 1
    {
      ghost var n0, c0 := issued, calls;
      added := [];
      var xs := parent.items;
      var out: seq<Value> := [];
      for i := 0 to |xs|
        invariant Valid() && Extended(c0, n0, added, calls, issued)
        invariant ResolveItemsSpec(parent, i, n0, select) == Traced(Success(out), added)
      {
        ghost var c1, n1 := calls, issued;
        var x, more := ResolveItem(parent, i, select, n0, out, added);
        ExtendedTrans(c0, n0, added, c1, n1, more, calls, issued);
        added := added + more;
        if x.Failure? {
          ItemsFailureStable(parent, i + 1, |xs|, n0, select);
          return Failure(x.error), added;
        }
        out := out + [x.value];
      }
      r := Success(out);
    }

    /** One item of the list comprehension. */
    method ResolveItem(parent: Value, i: nat, select: Selector, ghost n0: nat, ghost out: seq<Value>, ghost added: seq<Fn>)
      returns (x: Result<Value, DbError>, ghost more: seq<Fn>)
      requires parent.List? && i < |parent.items| && Valid()
      requires ResolveItemsSpec(parent, i, n0, select) == Traced(Success(out), added) && issued == n0 + |added|
      modifies this
      ensures Valid() && Extended(old(calls), old(issued), more, calls, issued)
      ensures ResolveItemsSpec(parent, i + 1, n0, select)
              == Traced(if x.Success? then Success(out + [x.value]) else Failure(x.error), added + more)
      decreases parent, 0
    {
      x, more := Resolve(parent.items[i], select);
      ItemsStep(parent, i, n0, select, out, added, Traced(x, more), ResolveItemsSpec(parent, i + 1, n0, select));
    }

    /** The dictionary comprehension of `_resolve`: every value resolved,
        keys kept. */
    method ResolveEntries(parent: Value, select: Selector) returns (r: Result<seq<Entry>, DbError>, ghost added: seq<Fn>)
      requires parent.Dict? && Valid()
      modifies this
      ensures Valid() && Extended(old(calls), old(issued), added, calls, issued)
      ensures ResolveEntriesSpec(parent, |parent.entries|, old(issued), select) == Traced(r, added)
      decreases parent, 1
    {
      ghost var n0, c0 := issued, calls;
      added := [];
      var es := parent.entries;
      var plain: seq<Entry> := [];
      for i := 0 to |es|
        invariant Valid() && Extended(c0, n0, added, calls, issued)
        invariant ResolveEntriesSpec(parent, i, n0, select) == Traced(Success(plain), added)
      {
        ghost var c1, n1 := calls, issued;
        var x, more := ResolveEntry(parent, i, select, n0, plain, added);
        ExtendedTrans(c0, n0, added, c1, n1, more, calls, issued);
        added := added + more;
        if x.Failure? {
          EntriesFailureStable(parent, i + 1, |es|, n0, select);
          return Failure(x.error), added;
        }
        plain := plain + [Entry(es[i].key, x.value)];
      }
      r := Success(plain);
    }

    /** One value of the dictionary comprehension. */
    method ResolveEntry(parent: Value, i: nat, select: Selector, ghost n0: nat, ghost plain: seq<Entry>, ghost added: seq<Fn>)
      returns (x: Result<Value, DbError>, ghost more: seq<Fn>)
      requires parent.Dict? && i < |parent.entries| && Valid()
      requires ResolveEntriesSpec(parent, i, n0, select) == Traced(Success(plain), added) && issued == n0 + |added|
      modifies this
      ensures Valid() && Extended(old(calls), old(issued), more, calls, issued)
      ensures ResolveEntriesSpec(parent, i + 1, n0, select)
              == Traced(if x.Success? then Success(plain + [Entry(parent.entries[i].key, x.value)]) else Failure(x.error),
                        added + more)
      decreases parent, 0
    {
      x, more := Resolve(parent.entries[i].value, select);
      EntriesStep(parent, i, n0, select, plain, added, Traced(x, more), ResolveEntriesSpec(parent, i + 1, n0, select));
    }
  }
}
