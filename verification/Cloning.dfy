// Deep copies (model.go): the slices, maps and byte buffers behind the package's values, as heap
// objects. A nil slice or map is null. Byte buffers are arrays of characters below 256, as in Text.

module Cloning {
  import opened Wrappers

  // url.Values (T is string) and map[string]json.RawMessage (T is char).
  class Table<T> {
    var entries: map<string, array?<T>>

    constructor ()
      ensures entries == map[]
    {
      entries := map[];
    }
  }

  datatype BeginRequest = BeginRequest(scopes: array?<string>, parameters: Table?<string>, disableState: bool)

  // The string fields of a token or user never change after it is made, and are kept as a list.
  datatype Token = Token(texts: seq<string>, expiry: int, scopes: array?<string>, metadata: Table?<char>)

  datatype User = User(texts: seq<string>, token: Token, raw: array?<char>)

  // --- what a value holds, apart from its heap layout ---

  type Slice<T> = Option<seq<T>>

  type Entries<T> = Option<map<string, Slice<T>>>

  datatype RequestValue = RequestValue(scopes: Slice<string>, parameters: Entries<string>, disableState: bool)

  datatype TokenValue = TokenValue(texts: seq<string>, expiry: int, scopes: Slice<string>, metadata: Entries<char>)

  datatype UserValue = UserValue(texts: seq<string>, token: TokenValue, raw: Slice<char>)

  // The slice holds the value, in one of the cells. Nil and empty are told apart.
  ghost predicate SliceHolds<T>(s: array?<T>, cells: set<object>, value: Slice<T>)
    reads cells
  {
    match value
    case None => s == null
    case Some(items) => s != null && s in cells && s[..] == items
  }

  ghost predicate EntriesHold<T>(entries: map<string, array?<T>>, cells: set<object>, values: map<string, Slice<T>>)
    reads cells
  {
    entries.Keys == values.Keys && forall key :: key in values ==> SliceHolds(entries[key], cells, values[key])
  }

  ghost predicate TableHolds<T>(t: Table?<T>, cells: set<object>, value: Entries<T>)
    reads cells
  {
    match value
    case None => t == null
    case Some(values) => t != null && t in cells && EntriesHold(t.entries, cells, values)
  }

  ghost predicate RequestHolds(request: BeginRequest, cells: set<object>, value: RequestValue)
    reads cells
  {
    && SliceHolds(request.scopes, cells, value.scopes)
    && TableHolds(request.parameters, cells, value.parameters)
    && request.disableState == value.disableState
  }

  ghost predicate TokenHolds(token: Token, cells: set<object>, value: TokenValue)
    reads cells
  {
    && token.texts == value.texts && token.expiry == value.expiry
    && SliceHolds(token.scopes, cells, value.scopes)
    && TableHolds(token.metadata, cells, value.metadata)
  }

  ghost predicate UserHolds(user: User, cells: set<object>, value: UserValue)
    reads cells
  {
    && user.texts == value.texts
    && TokenHolds(user.token, cells, value.token)
    && SliceHolds(user.raw, cells, value.raw)
  }

  // What a request, token or user holds is determined by the heap alone.
  lemma SliceValueIsUnique<T>(s: array?<T>, a: set<object>, x: Slice<T>, b: set<object>, y: Slice<T>)
    requires SliceHolds(s, a, x) && SliceHolds(s, b, y)
    ensures x == y
  {
  }

  lemma TableValueIsUnique<T>(t: Table?<T>, a: set<object>, x: Entries<T>, b: set<object>, y: Entries<T>)
    requires TableHolds(t, a, x) && TableHolds(t, b, y)
    ensures x == y
  {
    if t != null {
      forall key | key in t.entries
        ensures x.value[key] == y.value[key]
      {
        SliceValueIsUnique(t.entries[key], a, x.value[key], b, y.value[key]);
      }
      assert x.value == y.value;
    }
  }

  lemma RequestValueIsUnique(request: BeginRequest, a: set<object>, x: RequestValue, b: set<object>, y: RequestValue)
    requires RequestHolds(request, a, x) && RequestHolds(request, b, y)
    ensures x == y
  {
    SliceValueIsUnique(request.scopes, a, x.scopes, b, y.scopes);
    TableValueIsUnique(request.parameters, a, x.parameters, b, y.parameters);
  }

  // Every request, token and user holds something: the relations exclude no caller.
  lemma SliceHasValue<T>(s: array?<T>) returns (cells: set<object>, value: Slice<T>)
    ensures SliceHolds(s, cells, value)
  {
    if s == null {
      return {}, None;
    }
    return {s}, Some(s[..]);
  }

  ghost function EntryCells<T>(entries: map<string, array?<T>>): set<object> {
    set key | key in entries && entries[key] != null :: entries[key]
  }

  lemma TableHasValue<T>(t: Table?<T>) returns (cells: set<object>, value: Entries<T>)
    ensures TableHolds(t, cells, value)
  {
    if t == null {
      return {}, None;
    }
    var entries := t.entries;
    cells := {t} + EntryCells(entries);
    value := Some(map key | key in entries :: if entries[key] == null then None else Some(entries[key][..]));
  }

  lemma RequestHasValue(request: BeginRequest) returns (cells: set<object>, value: RequestValue)
    ensures RequestHolds(request, cells, value)
  {
    var a, scopes := SliceHasValue(request.scopes);
    var b, parameters := TableHasValue(request.parameters);
    cells, value := a + b, RequestValue(scopes, parameters, request.disableState);
  }

  lemma UserHasValue(user: User) returns (cells: set<object>, value: UserValue)
    ensures UserHolds(user, cells, value)
  {
    var token := user.token;
    var a, scopes := SliceHasValue(token.scopes);
    var b, metadata := TableHasValue(token.metadata);
    var c, raw := SliceHasValue(user.raw);
    cells := a + b + c;
    value := UserValue(user.texts, TokenValue(token.texts, token.expiry, scopes, metadata), raw);
  }

  // --- the clones ---

  // cloneStrings and cloneRawMessage.
  method CloneSlice<T>(s: array?<T>, ghost cells: set<object>, ghost value: Slice<T>)
    returns (clone: array?<T>, ghost own: set<object>)
    requires SliceHolds(s, cells, value)
    ensures fresh(own) && SliceHolds(clone, own, value)
  {
    if s == null {
      return null, {};
    }
    clone := new T[s.Length](i requires 0 <= i < s.Length reads s => s[i]);
    own := {clone};
    assert clone[..] == s[..];
  }

  lemma EntriesGrow<T>(
      entries: map<string, array?<T>>, cells: set<object>, values: map<string, Slice<T>>,
      key: string, slice: array?<T>, cell: set<object>, value: Slice<T>)
    requires EntriesHold(entries, cells, values) && SliceHolds(slice, cell, value)
    ensures EntriesHold(entries[key := slice], cells + cell, values[key := value])
  {
  }

  lemma EntriesWiden<T>(entries: map<string, array?<T>>, cells: set<object>, values: map<string, Slice<T>>, more: set<object>)
    requires EntriesHold(entries, cells, values)
    ensures EntriesHold(entries, cells + more, values)
  {
  }

  // clone[key] = cloneStrings(slice).
  method PutClone<T>(
      clone: Table<T>, ghost slices: set<object>, ghost copied: map<string, Slice<T>>,
      key: string, slice: array?<T>, ghost cells: set<object>, ghost value: Slice<T>)
    returns (ghost cell: set<object>)
    requires clone !in slices && EntriesHold(clone.entries, slices, copied) && SliceHolds(slice, cells, value)
    modifies clone
    ensures fresh(cell) && EntriesHold(clone.entries, slices + cell, copied[key := value])
  {
    var copy;
    copy, cell := CloneSlice(slice, cells, value);
    EntriesGrow(clone.entries, slices, copied, key, copy, cell, value);
    clone.entries := clone.entries[key := copy];
  }

  // The map is visited in any order.
  method PutClones<T>(
      clone: Table<T>, entries: map<string, array?<T>>, ghost cells: set<object>, ghost values: map<string, Slice<T>>)
    returns (ghost slices: set<object>)
    requires clone.entries == map[] && clone !in cells && EntriesHold(entries, cells, values)
    modifies clone
    ensures fresh(slices) && EntriesHold(clone.entries, slices, values)
  {
    slices := {};
    ghost var copied := map[];
    var keys := entries.Keys;
    while keys != {}
      invariant fresh(slices) && keys <= entries.Keys && copied.Keys == entries.Keys - keys
      invariant forall key :: key in copied ==> copied[key] == values[key]
      invariant EntriesHold(clone.entries, slices, copied) && EntriesHold(entries, cells, values)
      decreases |keys|
    {
      var key :| key in keys;
      ghost var cell := PutClone(clone, slices, copied, key, entries[key], cells, values[key]);
      slices, copied := slices + cell, copied[key := values[key]];
      keys := keys - {key};
    }
    assert copied == values;
  }

  // cloneValues and cloneRawMap.
  method CloneTable<T>(t: Table?<T>, ghost cells: set<object>, ghost value: Entries<T>)
    returns (clone: Table?<T>, ghost own: set<object>)
    requires TableHolds(t, cells, value)
    ensures fresh(own) && TableHolds(clone, own, value)
  {
    if t == null {
      return null, {};
    }
    clone := new Table();
    own := PutClones(clone, t.entries, cells, value.value);
    EntriesWiden(clone.entries, own, value.value, {clone});
    own := own + {clone};
  }

  method CloneRequest(request: BeginRequest, ghost cells: set<object>, ghost value: RequestValue)
    returns (clone: BeginRequest, ghost own: set<object>)
    requires RequestHolds(request, cells, value)
    ensures fresh(own) && RequestHolds(clone, own, value)
  {
    var scopes, a := CloneSlice(request.scopes, cells, value.scopes);
    var parameters, b := CloneTable(request.parameters, cells, value.parameters);
    clone, own := BeginRequest(scopes, parameters, request.disableState), a + b;
  }

  method CloneToken(token: Token, ghost cells: set<object>, ghost value: TokenValue)
    returns (clone: Token, ghost own: set<object>)
    requires TokenHolds(token, cells, value)
    ensures fresh(own) && TokenHolds(clone, own, value)
  {
    var scopes, a := CloneSlice(token.scopes, cells, value.scopes);
    var metadata, b := CloneTable(token.metadata, cells, value.metadata);
    clone, own := Token(token.texts, token.expiry, scopes, metadata), a + b;
  }

  method CloneUser(user: User, ghost cells: set<object>, ghost value: UserValue)
    returns (clone: User, ghost own: set<object>)
    requires UserHolds(user, cells, value)
    ensures fresh(own) && UserHolds(clone, own, value)
  {
    var token, a := CloneToken(user.token, cells, value.token);
    var raw, b := CloneSlice(user.raw, cells, value.raw);
    clone, own := User(user.texts, token, raw), a + b;
  }
}
