/** The batch engine of `lib/cache.js`: matching, querying and the atomic steps of a batch. */
module CacheBatch {
  import opened Common

  // ---------------------------------------------------------------- requests and responses

  /** A parsed URL; its text is determined by these parts. */
  datatype Url = Url(protocol: string, location: string, search: string, hash: string)

  /** Header names are kept in lower case. */
  datatype Request = Request(httpMethod: string, url: Url, headers: map<string, string>)

  /** `vary`: the trimmed names listed in a `vary` header, if there is one. */
  datatype Response = Response(body: int, isError: bool, status: int, vary: Option<seq<string>>)

  datatype Entry = Entry(request: Request, response: Response)

  datatype Options = Options(ignoreMethod: bool, ignoreSearch: bool, ignoreVary: bool)

  datatype Error = TypeError | InvalidStateError

  const DEFAULTS := Options(false, false, false)

  function Given(options: Option<Options>): Options {
    if options.Some? then options.value else DEFAULTS
  }

  function LowerChar(c: char): char {
    if 'A' <= c <= 'Z' then (c as int + 32) as char else c
  }

  function Lower(s: string): string {
    seq(|s|, i requires 0 <= i < |s| => LowerChar(s[i]))
  }

  function Header(request: Request, name: string): Option<string> {
    if Lower(name) in request.headers then Some(request.headers[Lower(name)]) else None
  }

  /** The part of a URL that is compared: never the hash, the search unless ignored. */
  function Compared(url: Url, ignoreSearch: bool): Url {
    url.(hash := "", search := if ignoreSearch then "" else url.search)
  }

  /** requestMatchCachedItem for a stored response. */
  predicate Matches(query: Request, cached: Entry, options: Option<Options>) {
    var o := Given(options);
    && (o.ignoreMethod || query.httpMethod == "GET")
    && Compared(query.url, o.ignoreSearch) == Compared(cached.request.url, o.ignoreSearch)
    && (o.ignoreVary || cached.response.vary.None? || VaryAgrees(query, cached.request, cached.response.vary.value))
  }

  predicate VaryAgrees(query: Request, cached: Request, fields: seq<string>) {
    forall i :: 0 <= i < |fields| ==> fields[i] != "*" && Header(query, fields[i]) == Header(cached, fields[i])
  }

  /** The loop of requestMatchCachedItem. */
  method CheckVary(query: Request, cached: Request, fields: seq<string>) returns (agrees: bool)
    ensures agrees == VaryAgrees(query, cached, fields)
  {
    for i := 0 to |fields|
      invariant VaryAgrees(query, cached, fields[..i])
    {
      if fields[i] == "*" {
        return false;
      }
      if Header(query, fields[i]) != Header(cached, fields[i]) {
        return false;
      }
      assert forall j :: 0 <= j < i ==> fields[..i][j] == fields[j];
    }
    assert fields[..|fields|] == fields;
    return true;
  }

  method RequestMatchesCachedItem(query: Request, cached: Entry, options: Option<Options>) returns (matches: bool)
    ensures matches == Matches(query, cached, options)
  {
    var o := Given(options);
    if !o.ignoreMethod && query.httpMethod != "GET" {
      return false;
    }
    if Compared(query.url, o.ignoreSearch) != Compared(cached.request.url, o.ignoreSearch) {
      return false;
    }
    if o.ignoreVary || cached.response.vary.None? {
      return true;
    }
    matches := CheckVary(query, cached.request, cached.response.vary.value);
  }

  // ---------------------------------------------------------------- filtering

  /** The entries that the request matches, in order. */
  function Matching(entries: seq<Entry>, query: Request, options: Option<Options>): seq<Entry> {
    if entries == [] then []
    else
      var rest := Matching(entries[..|entries| - 1], query, options);
      var last := entries[|entries| - 1];
      if Matches(query, last, options) then rest + [last] else rest
  }

  /** The entries that it does not match, in order. */
  function Others(entries: seq<Entry>, query: Request, options: Option<Options>): seq<Entry> {
    if entries == [] then []
    else
      var rest := Others(entries[..|entries| - 1], query, options);
      var last := entries[|entries| - 1];
      if Matches(query, last, options) then rest else rest + [last]
  }

  lemma NothingOthers(query: Request, options: Option<Options>)
    ensures Others([], query, options) == []
  {
  }

  lemma {:induction false} OthersConcat(a: seq<Entry>, b: seq<Entry>, query: Request, options: Option<Options>)
    ensures Others(a + b, query, options) == Others(a, query, options) + Others(b, query, options)
    decreases |b|
  {
    if b == [] {
      assert a + b == a;
    } else {
      var n := |b| - 1;
      OthersConcat(a, b[..n], query, options);
      assert (a + b)[..|a + b| - 1] == a + b[..n] && (a + b)[|a + b| - 1] == b[n];
    }
  }

  lemma OthersHead(entries: seq<Entry>, i: nat, query: Request, options: Option<Options>)
    requires i < |entries|
    ensures Others(entries[i..], query, options)
      == (if Matches(query, entries[i], options) then [] else [entries[i]]) + Others(entries[i + 1..], query, options)
  {
    hide Matches;
    assert entries[i..] == [entries[i]] + entries[i + 1..];
    OthersConcat([entries[i]], entries[i + 1..], query, options);
    assert [entries[i]][..0] == [];
  }

  /** No entry is matched exactly when filtering changes nothing. */
  lemma {:induction false} NothingMatching(entries: seq<Entry>, query: Request, options: Option<Options>)
    ensures Matching(entries, query, options) == [] <==> Others(entries, query, options) == entries
    ensures Matching(entries, query, options) == [] <==>
      forall i :: 0 <= i < |entries| ==> !Matches(query, entries[i], options)
    ensures |Others(entries, query, options)| <= |entries|
  {
    if entries != [] {
      var n := |entries| - 1;
      NothingMatching(entries[..n], query, options);
      assert entries == entries[..n] + [entries[n]];
    }
  }

  /** Filtering is final: nothing that is left is matched. */
  lemma {:induction false} OthersUnmatched(entries: seq<Entry>, query: Request, options: Option<Options>)
    ensures Matching(Others(entries, query, options), query, options) == []
  {
    if entries != [] {
      var n := |entries| - 1;
      var rest := Others(entries[..n], query, options);
      OthersUnmatched(entries[..n], query, options);
      if !Matches(query, entries[n], options) {
        assert (rest + [entries[n]])[..|rest|] == rest;
      }
    }
  }

  method QueryCache(storage: seq<Entry>, query: Request, options: Option<Options>) returns (resultList: seq<Entry>)
    ensures resultList == Matching(storage, query, options)
  {
    resultList := [];
    for i := 0 to |storage|
      invariant resultList == Matching(storage[..i], query, options)
    {
      assert storage[..i + 1][..i] == storage[..i];
      var matches := RequestMatchesCachedItem(query, storage[i], options);
      if matches {
        resultList := resultList + [storage[i]];
      }
    }
    assert storage[..|storage|] == storage;
  }

  // ---------------------------------------------------------------- operations

  datatype Operation = Operation(kind: string, request: Request, response: Option<Response>, options: Option<Options>)

  predicate AllowedProtocol(url: Url) { url.protocol == "http:" || url.protocol == "https:" }

  /** The put items of a batch, in order. */
  function Puts(ops: seq<Operation>): seq<Entry> {
    if ops == [] then []
    else
      Puts(ops[..|ops| - 1]) + PutEntries(ops[|ops| - 1])
  }

  function PutEntries(op: Operation): seq<Entry> {
    if op.kind == "put" && op.response.Some? then [Entry(op.request, op.response.value)] else []
  }

  /** The entries that no operation of a batch matches. */
  function Untouched(entries: seq<Entry>, ops: seq<Operation>): seq<Entry> {
    if ops == [] then entries
    else
      var last := ops[|ops| - 1];
      Others(Untouched(entries, ops[..|ops| - 1]), last.request, last.options)
  }

  /** The same in one pass over the entries. */
  function Unmatched(entries: seq<Entry>, ops: seq<Operation>): seq<Entry> {
    if entries == [] then []
    else
      var rest := Unmatched(entries[..|entries| - 1], ops);
      var last := entries[|entries| - 1];
      if (exists k :: 0 <= k < |ops| && Matches(ops[k].request, last, ops[k].options)) then rest else rest + [last]
  }

  lemma {:induction false} UntouchedIsUnmatched(entries: seq<Entry>, ops: seq<Operation>)
    ensures Untouched(entries, ops) == Unmatched(entries, ops)
    decreases |ops|, |entries|
  {
    hide Matches;
    if ops == [] {
      NoOperations(entries);
    } else {
      var n := |ops| - 1;
      UntouchedIsUnmatched(entries, ops[..n]);
      MoreOperations(entries, ops);
    }
  }

  lemma {:induction false} NoOperations(entries: seq<Entry>)
    ensures Unmatched(entries, []) == entries
  {
    if entries != [] {
      var n := |entries| - 1;
      NoOperations(entries[..n]);
      assert entries == entries[..n] + [entries[n]];
    }
  }

  lemma {:induction false} MoreOperations(entries: seq<Entry>, ops: seq<Operation>)
    requires ops != []
    ensures var n := |ops| - 1;
      Others(Unmatched(entries, ops[..n]), ops[n].request, ops[n].options) == Unmatched(entries, ops)
    decreases |entries|
  {
    hide Matches;
    if entries != [] {
      var n, m := |ops| - 1, |entries| - 1;
      MoreOperations(entries[..m], ops);
      var rest, last := Unmatched(entries[..m], ops[..n]), entries[m];
      assert (rest + [last])[..|rest|] == rest;
      assert (exists k :: 0 <= k < |ops| && Matches(ops[k].request, last, ops[k].options)) <==>
        ((exists k :: 0 <= k < n && Matches(ops[..n][k].request, last, ops[..n][k].options)) || Matches(ops[n].request, last, ops[n].options)) by {
        if k :| 0 <= k < |ops| && Matches(ops[k].request, last, ops[k].options) {
          assert k < n ==> ops[..n][k] == ops[k];
        }
        if k :| 0 <= k < n && Matches(ops[..n][k].request, last, ops[..n][k].options) {
          assert ops[k] == ops[..n][k];
        }
      }
    }
  }

  /** What is wrong with an operation, given the items the batch has put before it. */
  function OperationError(op: Operation, added: seq<Entry>): Option<Error> {
    if op.kind != "delete" && op.kind != "put" then Some(TypeError)
    else if op.kind == "delete" && op.response.Some? then Some(TypeError)
    else if Matching(added, op.request, op.options) != [] then Some(InvalidStateError)
    else if op.kind == "delete" then None
    else if op.response.None? || !AllowedProtocol(op.request.url) || op.request.httpMethod != "GET" || op.options.Some?
    then Some(TypeError)
    else None
  }

  /** The error of the first faulty operation; it does not depend on what is stored. */
  function BatchError(ops: seq<Operation>): Option<Error> {
    if ops == [] then None
    else
      var before := BatchError(ops[..|ops| - 1]);
      if before.Some? then before else OperationError(ops[|ops| - 1], Puts(ops[..|ops| - 1]))
  }

  /** The list that a batch edits in place. */
  class EntryList {
    var items: seq<Entry>

    constructor (items: seq<Entry>)
      ensures this.items == items
    {
      this.items := items;
    }

    /** The backward splice loop. */
    method RemoveMatching(query: Request, options: Option<Options>)
      modifies this
      ensures items == Others(old(items), query, options)
    {
      hide Matches, Others;
      NothingOthers(query, options);
      ghost var original := items;
      var idx := |items| - 1;
      assert original[..idx + 1] == items && original[idx + 1..] == [];
      while idx != -1
        invariant -1 <= idx < |original|
        invariant items == original[..idx + 1] + Others(original[idx + 1..], query, options)
        decreases idx + 1
      {
        OthersHead(original, idx, query, options);
        ghost var kept := Others(original[idx + 1..], query, options);
        assert items[idx] == original[idx];
        assert items[..idx] == original[..idx] && items[idx + 1..] == kept;
        var matches := RequestMatchesCachedItem(query, items[idx], options);
        if matches {
          items := items[..idx] + items[idx + 1..];
        } else {
          assert items == original[..idx] + ([original[idx]] + kept);
        }
        idx := idx - 1;
      }
      assert original[0..] == original;
    }

    /** batchCacheOperationsAtomicSteps. */
    method AtomicSteps(ops: seq<Operation>) returns (error: Option<Error>)
      modifies this
      ensures error == BatchError(ops)
      ensures error.None? ==> items == Untouched(old(items), ops) + Puts(ops)
    {
      var addedItems: seq<Entry> := [];
      assert Puts([]) == [] && Untouched(items, []) == items && BatchError([]).None?;
      hide Matching, Others, Untouched, Puts, BatchError, OperationError, PutEntries;
      for k := 0 to |ops|
        invariant BatchError(ops[..k]).None?
        invariant addedItems == Puts(ops[..k])
        invariant items == Untouched(old(items), ops[..k]) + addedItems
      {
        assert ops[..k + 1][..k] == ops[..k] && ops[..k + 1][k] == ops[k];
        FirstError(ops, k + 1);
        OneMore(old(items), ops[..k + 1]);
        error, addedItems := OneStep(ops[k], addedItems, Untouched(old(items), ops[..k]));
        if error.Some? {
          return;
        }
      }
      assert ops[..|ops|] == ops;
      return None;
    }

    /** One turn of the loop over the operations; `kept` is what the batch has left of the storage. */
    method OneStep(op: Operation, addedItems: seq<Entry>, ghost kept: seq<Entry>) returns (error: Option<Error>, added: seq<Entry>)
      requires items == kept + addedItems
      modifies this
      ensures error == OperationError(op, addedItems)
      ensures error.None? ==> added == addedItems + PutEntries(op)
      ensures error.None? ==> items == Others(kept, op.request, op.options) + added
    {
      hide Matching, Others, AllowedProtocol;
      added := addedItems;
      if op.kind != "delete" && op.kind != "put" {
        return Some(TypeError), added;
      }
      if op.kind == "delete" && op.response.Some? {
        return Some(TypeError), added;
      }
      var found := QueryCache(addedItems, op.request, op.options);
      if |found| != 0 {
        return Some(InvalidStateError), added;
      }
      NothingMatching(addedItems, op.request, op.options);
      OthersConcat(kept, addedItems, op.request, op.options);
      if op.kind == "delete" {
        RemoveMatching(op.request, op.options);
        return None, added;
      }
      if op.response.None? || !AllowedProtocol(op.request.url) {
        return Some(TypeError), added;
      }
      if op.request.httpMethod != "GET" || op.options.Some? {
        return Some(TypeError), added;
      }
      RemoveMatching(op.request, op.options);
      var item := Entry(op.request, op.response.value);
      items := items + [item];
      added := added + [item];
      return None, added;
    }
  }

  /** What the last operation of a batch adds. */
  lemma OneMore(entries: seq<Entry>, ops: seq<Operation>)
    requires ops != [] && BatchError(ops[..|ops| - 1]).None?
    ensures var before, last := ops[..|ops| - 1], ops[|ops| - 1];
      && BatchError(ops) == OperationError(last, Puts(before))
      && Untouched(entries, ops) == Others(Untouched(entries, before), last.request, last.options)
      && Puts(ops) == Puts(before) + PutEntries(last)
  {
    hide OperationError, Others, PutEntries;
  }

  lemma {:induction false} FirstError(ops: seq<Operation>, k: nat)
    requires k <= |ops|
    ensures BatchError(ops[..k]).Some? ==> BatchError(ops) == BatchError(ops[..k])
    decreases |ops|
  {
    hide OperationError, Puts;
    if k < |ops| {
      var n := |ops| - 1;
      FirstError(ops[..n], k);
      assert ops[..n][..k] == ops[..k];
    } else {
      assert ops[..k] == ops;
    }
  }

  // ---------------------------------------------------------------- the stored cache

  /** No entry's request matches an earlier entry under default options. */
  predicate NoShadowing(entries: seq<Entry>) {
    forall i, j :: 0 <= i < j < |entries| ==> !Matches(entries[j].request, entries[i], None)
  }

  /** The state a batch leaves behind: a failed one changes nothing. */
  function AfterBatch(stored: seq<Entry>, ops: seq<Operation>): seq<Entry> {
    if BatchError(ops).Some? then stored else Untouched(stored, ops) + Puts(ops)
  }

  /** Removing entries keeps the order of the others. */
  lemma {:induction false} OthersNoShadowing(entries: seq<Entry>, query: Request, options: Option<Options>)
    requires NoShadowing(entries)
    ensures NoShadowing(Others(entries, query, options))
    ensures forall e :: e in Others(entries, query, options) ==> e in entries && !Matches(query, e, options)
  {
    hide Matches;
    if entries != [] {
      var n := |entries| - 1;
      OthersNoShadowing(entries[..n], query, options);
      var rest := Others(entries[..n], query, options);
      forall i | 0 <= i < |rest| ensures !Matches(entries[n].request, rest[i], None) {
        assert rest[i] in entries[..n];
      }
    }
  }

  lemma {:induction false} AppendNoShadowing(entries: seq<Entry>, e: Entry)
    requires NoShadowing(entries) && forall i :: 0 <= i < |entries| ==> !Matches(e.request, entries[i], None)
    ensures NoShadowing(entries + [e])
  {
    hide Matches;
  }

  /** Removing what an operation matches from the entries kept so far, with those added so far. */
  lemma RemoveNoShadowing(kept: seq<Entry>, added: seq<Entry>, query: Request, options: Option<Options>)
    requires NoShadowing(kept + added) && Matching(added, query, options) == []
    ensures var left := Others(kept, query, options) + added;
      NoShadowing(left) && forall i :: 0 <= i < |left| ==> !Matches(query, left[i], options)
  {
    hide Matches, NoShadowing;
    NothingMatching(added, query, options);
    OthersConcat(kept, added, query, options);
    OthersNoShadowing(kept + added, query, options);
    var left := Others(kept, query, options) + added;
    assert left == Others(kept + added, query, options);
    forall i | 0 <= i < |left| ensures !Matches(query, left[i], options) {
      assert left[i] in left;
    }
  }

  lemma PutNoShadowing(kept: seq<Entry>, added: seq<Entry>, op: Operation)
    requires NoShadowing(kept + added) && OperationError(op, added).None? && op.kind == "put"
    ensures NoShadowing(Others(kept, op.request, op.options) + (added + PutEntries(op)))
  {
    hide Matches, NoShadowing, AllowedProtocol, Others, Matching;
    RemoveNoShadowing(kept, added, op.request, op.options);
    var left, e := Others(kept, op.request, op.options) + added, Entry(op.request, op.response.value);
    AppendNoShadowing(left, e);
    assert Others(kept, op.request, op.options) + (added + [e]) == left + [e];
  }

  lemma DeleteNoShadowing(kept: seq<Entry>, added: seq<Entry>, op: Operation)
    requires NoShadowing(kept + added) && OperationError(op, added).None? && op.kind == "delete"
    ensures NoShadowing(Others(kept, op.request, op.options) + (added + PutEntries(op)))
  {
    hide Matches, NoShadowing, AllowedProtocol, Others, Matching;
    RemoveNoShadowing(kept, added, op.request, op.options);
    assert added + [] == added;
  }

  /** A batch without error processed one operation at a time. */
  lemma {:induction false} BatchNoShadowing(stored: seq<Entry>, ops: seq<Operation>)
    requires NoShadowing(stored) && BatchError(ops).None?
    ensures NoShadowing(Untouched(stored, ops) + Puts(ops))
    decreases |ops|
  {
    hide Matches, NoShadowing, AllowedProtocol;
    if ops == [] {
      assert Untouched(stored, ops) + Puts(ops) == stored;
    } else {
      var n := |ops| - 1;
      var op := ops[n];
      BatchNoShadowing(stored, ops[..n]);
      var kept, added := Untouched(stored, ops[..n]), Puts(ops[..n]);
      OneMore(stored, ops);
      hide BatchError, Untouched, Puts;
      assert OperationError(op, added).None?;
      if op.kind == "put" {
        PutNoShadowing(kept, added, op);
      } else {
        DeleteNoShadowing(kept, added, op);
      }
    }
  }

  function RunBatches(batches: seq<seq<Operation>>): seq<Entry> {
    if batches == [] then [] else AfterBatch(RunBatches(batches[..|batches| - 1]), batches[|batches| - 1])
  }

  /** Over every run of batches from an empty cache, failing ones included. */
  lemma {:induction false} RunNoShadowing(batches: seq<seq<Operation>>)
    ensures NoShadowing(RunBatches(batches))
  {
    hide NoShadowing, BatchError, Untouched, Puts;
    if batches == [] {
      EmptyNoShadowing();
    } else {
      var stored := RunBatches(batches[..|batches| - 1]);
      RunNoShadowing(batches[..|batches| - 1]);
      if BatchError(batches[|batches| - 1]).None? {
        BatchNoShadowing(stored, batches[|batches| - 1]);
      }
    }
  }

  lemma EmptyNoShadowing()
    ensures NoShadowing([])
  {
  }

  /** Cache.put and Cache.delete as batches of one operation. */
  function PutBatch(request: Request, response: Response): seq<Operation> {
    [Operation("put", request, Some(response), None)]
  }

  function DeleteBatch(request: Request, options: Option<Options>): seq<Operation> {
    [Operation("delete", request, None, options)]
  }

  /** validateResponse. */
  predicate Cacheable(response: Response) {
    && !response.isError && 200 <= response.status <= 299 && response.status != 206
    && (response.vary.Some? ==> forall i :: 0 <= i < |response.vary.value| ==> response.vary.value[i] != "*")
  }

  /** Right after a successful put, looking the request up finds the stored response and nothing
      else; the put fails exactly when the request is not a GET over http or https. */
  lemma PutThenMatchAll(stored: seq<Entry>, request: Request, response: Response)
    requires Cacheable(response)
    ensures BatchError(PutBatch(request, response)).None? <==> AllowedProtocol(request.url) && request.httpMethod == "GET"
    ensures BatchError(PutBatch(request, response)).None? ==>
      Matching(AfterBatch(stored, PutBatch(request, response)), request, None) == [Entry(request, response)]
  {
    var ops := PutBatch(request, response);
    SingleBatch(stored, ops[0]);
    if BatchError(ops).None? {
      var left := Others(stored, request, None);
      var e := Entry(request, response);
      OthersUnmatched(stored, request, None);
      assert (left + [e])[..|left|] == left;
      assert Matches(request, e, None);
    }
  }

  lemma SingleBatch(stored: seq<Entry>, op: Operation)
    ensures BatchError([op]) == OperationError(op, [])
    ensures Matching([], op.request, op.options) == []
    ensures BatchError([op]).None? ==>
      AfterBatch(stored, [op]) == Others(stored, op.request, op.options) +
        if op.kind == "put" then [Entry(op.request, op.response.value)] else []
  {
    assert [op][..0] == [];
    assert Puts([]) == [] && Untouched(stored, []) == stored;
  }

  /** Right after a delete nothing matches the request under the same options, and every other
      entry is still there in order. */
  lemma DeleteThenMatchAll(stored: seq<Entry>, request: Request, options: Option<Options>)
    ensures var after := AfterBatch(stored, DeleteBatch(request, options));
      && after == Others(stored, request, options)
      && Matching(after, request, options) == []
  {
    var ops := DeleteBatch(request, options);
    SingleBatch(stored, ops[0]);
    OthersUnmatched(stored, request, options);
    assert Others(stored, request, options) + [] == Others(stored, request, options);
  }

  /** The store behind a cache: a batch edits a copy and writes it back only on success. */
  class CacheStore {
    var stored: seq<Entry>

    constructor ()
      ensures stored == RunBatches([])
    {
      stored := [];
    }

    method BatchCacheOperations(ops: seq<Operation>) returns (error: Option<Error>)
      modifies this
      ensures error == BatchError(ops)
      ensures stored == AfterBatch(old(stored), ops)
    {
      hide BatchError, Untouched, Puts;
      var storage := new EntryList(stored);
      error := storage.AtomicSteps(ops);
      if error.Some? {
        return;
      }
      stored := storage.items;
    }

    /** Cache.put; `bodyUsed` says that the response's body was read before. */
    method Put(request: Request, response: Response, bodyUsed: bool) returns (error: Option<Error>)
      modifies this
      ensures error.None? <==> AllowedProtocol(request.url) && Cacheable(response) && !bodyUsed && request.httpMethod == "GET"
      ensures error.None? ==> Matching(stored, request, None) == [Entry(request, response)]
      ensures error.None? ==> stored == AfterBatch(old(stored), PutBatch(request, response))
      ensures error.Some? ==> stored == old(stored)
    {
      hide BatchError, Matching, Untouched, Puts;
      if !AllowedProtocol(request.url) {
        return Some(TypeError);
      }
      if !Cacheable(response) {
        return Some(TypeError);
      }
      if bodyUsed {
        return Some(TypeError);
      }
      PutThenMatchAll(stored, request, response);
      error := BatchCacheOperations(PutBatch(request, response));
    }

    /** Cache.delete. */
    method Delete(request: Request, options: Option<Options>) returns (error: Option<Error>)
      modifies this
      ensures error.None? <==> AllowedProtocol(request.url)
      ensures error.None? ==> stored == Others(old(stored), request, options) && Matching(stored, request, options) == []
      ensures error.Some? ==> stored == old(stored)
    {
      if !AllowedProtocol(request.url) {
        return Some(TypeError);
      }
      DeleteThenMatchAll(stored, request, options);
      SingleBatch(stored, DeleteBatch(request, options)[0]);
      hide Matching, Untouched, Puts;
      error := BatchCacheOperations(DeleteBatch(request, options));
    }
  }
}
