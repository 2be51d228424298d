/** Python values as the harness meets them: what `json.load` returns for the index
    file, what the retriever's `get_stats()` returns, the entries of a metrics dict.
    A dict is the ordered list of its items (CPython dicts keep insertion order, and
    the previews take "the first five items"). The operations here are the Python
    expressions the harness evaluates on such values, each with the exception it
    raises when the value has the wrong type. */
module PyValue {
  import opened Wrappers
  import opened PyText

  datatype Json =
    | JNull                            // None
    | JBool(b: bool)
    | JInt(i: int)
    | JFloat(r: real)
    | JStr(s: string)
    | JList(items: seq<Json>)
    | JObject(fields: seq<Field>)      // dict, items in insertion order

  type Field = (string, Json)

  /** A raised exception: `type(e).__name__` and `str(e)`. */
  datatype PyError = PyError(typeName: string, message: string)

  // ---------------------------------------------------------------------------
  // dict items

  predicate HasKey(fields: seq<Field>, k: string) {
    fields != [] && (fields[0].0 == k || HasKey(fields[1..], k))
  }

  /** Keys of a dict are distinct; every dict CPython builds has this property. */
  predicate UniqueKeys(fields: seq<Field>) {
    fields == [] || (!HasKey(fields[1..], fields[0].0) && UniqueKeys(fields[1..]))
  }

  /** The position of the first item with key `k`, or `|fields|` when there is none. */
  function KeyIndex(fields: seq<Field>, k: string): (i: nat)
    ensures i <= |fields|
    ensures i < |fields| <==> HasKey(fields, k)
    ensures i < |fields| ==> fields[i].0 == k
    ensures forall j :: 0 <= j < i ==> fields[j].0 != k
  {
    if fields == [] || fields[0].0 == k then 0 else 1 + KeyIndex(fields[1..], k)
  }

  /** `d.get(k)`: the value stored under `k`, found at its first position, if any. */
  function Lookup(fields: seq<Field>, k: string): (r: Option<Json>)
    ensures r.Some? <==> HasKey(fields, k)
    ensures r.Some? ==> r.value == fields[KeyIndex(fields, k)].1
  {
    if fields == [] then None
    else if fields[0].0 == k then Some(fields[0].1)
    else Lookup(fields[1..], k)
  }

  /** `d[k] = v`: an existing key keeps its position and takes the new value; a new
      key goes last. */
  function Put(fields: seq<Field>, k: string, v: Json): (r: seq<Field>)
    ensures !HasKey(fields, k) ==> r == fields + [(k, v)]
  {
    if fields == [] then [(k, v)]
    else if fields[0].0 == k then [(k, v)] + fields[1..]
    else
      assert fields + [(k, v)] == [fields[0]] + (fields[1..] + [(k, v)]);
      [fields[0]] + Put(fields[1..], k, v)
  }

  /** `del d[k]` for a key that is present: its item is removed, the rest keep their order. */
  function Delete(fields: seq<Field>, k: string): (r: seq<Field>)
    ensures r == WithoutFirst(fields, k)
    ensures UniqueKeys(fields) ==> !HasKey(r, k)
  {
    if fields == [] then []
    else if fields[0].0 == k then fields[1..]
    else
      var rest := Delete(fields[1..], k);
      assert ([fields[0]] + rest)[1..] == rest;
      WithoutFirstCons(fields, k);
      [fields[0]] + rest
  }

  /** `fields` without the item at the first position of `k`, or `fields` itself. */
  function WithoutFirst(fields: seq<Field>, k: string): seq<Field> {
    var i := KeyIndex(fields, k);
    if i < |fields| then fields[..i] + fields[i + 1..] else fields
  }

  lemma WithoutFirstCons(fields: seq<Field>, k: string)
    requires fields != [] && fields[0].0 != k
    ensures WithoutFirst(fields, k) == [fields[0]] + WithoutFirst(fields[1..], k)
  {
    var i := KeyIndex(fields[1..], k);
    assert KeyIndex(fields, k) == i + 1;
    if i < |fields| - 1 {
      assert fields[..i + 1] == [fields[0]] + fields[1..][..i];
      assert fields[i + 2..] == fields[1..][i + 1..];
    }
  }

  /** The first `n` elements: the slice `xs[:n]` of a list, and the items that
      `{k: v for i, (k, v) in enumerate(d.items()) if i < n}` keeps of a dict. */
  function FirstItems<T>(xs: seq<T>, n: nat): (r: seq<T>)
    ensures |r| == if |xs| < n then |xs| else n
    ensures r == xs[..|r|]
  {
    if |xs| <= n then xs else xs[..n]
  }

  // ---------------------------------------------------------------------------
  // Python semantics of the expressions the harness evaluates

  /** `bool(v)`: None, False, zero, and empty strings, lists and dicts are false. */
  predicate Truthy(v: Json) {
    match v
    case JNull => false
    case JBool(b) => b
    case JInt(i) => i != 0
    case JFloat(r) => r != 0.0
    case JStr(s) => s != []
    case JList(items) => items != []
    case JObject(fields) => fields != []
  }

  /** `isinstance(v, int)`; in Python `bool` is a subclass of `int`. */
  predicate IsPyInt(v: Json) {
    v.JInt? || v.JBool?
  }

  /** The integer an int (or bool) stands for. */
  function PyIntValue(v: Json): int
    requires IsPyInt(v)
  {
    match v
    case JInt(i) => i
    case JBool(b) => if b then 1 else 0
  }

  function TypeName(v: Json): string {
    match v
    case JNull => "NoneType"
    case JBool(_) => "bool"
    case JInt(_) => "int"
    case JFloat(_) => "float"
    case JStr(_) => "str"
    case JList(_) => "list"
    case JObject(_) => "dict"
  }

  function NoAttribute(v: Json, attr: string): PyError {
    PyError("AttributeError", "'" + TypeName(v) + "' object has no attribute '" + attr + "'")
  }

  /** `key in v` for a string `key`: key membership for a dict, element membership for
      a list, substring for a str, a TypeError for anything else. */
  function Contains(v: Json, key: string): Result<bool, PyError> {
    match v
    case JObject(fields) => Ok(HasKey(fields, key))
    case JList(items) => Ok(JStr(key) in items)
    case JStr(s) => Ok(IsSubstring(key, s))
    case _ => Err(PyError("TypeError", "argument of type '" + TypeName(v) + "' is not iterable"))
  }

  /** `v[key]` for a string `key`. */
  function Subscript(v: Json, key: string): Result<Json, PyError> {
    match v
    case JObject(fields) =>
      (match Lookup(fields, key)
       case Some(x) => Ok(x)
       case None => Err(PyError("KeyError", "'" + key + "'")))
    case JList(_) => Err(PyError("TypeError", "list indices must be integers or slices, not str"))
    case JStr(_) => Err(PyError("TypeError", "string indices must be integers, not 'str'"))
    case _ => Err(PyError("TypeError", "'" + TypeName(v) + "' object is not subscriptable"))
  }

  /** `v.get(key, default)`; only a dict has `get`. */
  function DictGet(v: Json, key: string, default: Json): Result<Json, PyError> {
    match v
    case JObject(fields) => Ok(Lookup(fields, key).GetOr(default))
    case _ => Err(NoAttribute(v, "get"))
  }

  /** `v.items()`; only a dict has `items`. */
  function Items(v: Json): Result<seq<Field>, PyError> {
    match v
    case JObject(fields) => Ok(fields)
    case _ => Err(NoAttribute(v, "items"))
  }

  /** `v.copy()`; dicts and lists have `copy` (values are immutable here, so the copy
      is the value itself). */
  function Copy(v: Json): Result<Json, PyError> {
    if v.JObject? || v.JList? then Ok(v) else Err(NoAttribute(v, "copy"))
  }

  // ---------------------------------------------------------------------------
  // Facts about dict items that the previews rely on

  /** After `d[k] = v`, `d[k]` is `v` and every other key reads as before. */
  lemma {:induction false} LookupPut(fields: seq<Field>, k: string, v: Json, j: string)
    ensures Lookup(Put(fields, k, v), k) == Some(v)
    ensures j != k ==> Lookup(Put(fields, k, v), j) == Lookup(fields, j)
  {
    if fields != [] && fields[0].0 != k {
      LookupPut(fields[1..], k, v, j);
    }
  }

  /** `d[k] = v` keeps the keys distinct. */
  lemma {:induction false} PutUnique(fields: seq<Field>, k: string, v: Json)
    requires UniqueKeys(fields)
    ensures UniqueKeys(Put(fields, k, v))
  {
    if fields != [] && fields[0].0 != k {
      PutUnique(fields[1..], k, v);
      HasKeyPut(fields[1..], k, v, fields[0].0);
    }
  }

  lemma {:induction false} HasKeyPut(fields: seq<Field>, k: string, v: Json, j: string)
    ensures HasKey(Put(fields, k, v), j) <==> j == k || HasKey(fields, j)
  {
    if fields != [] && fields[0].0 != k {
      HasKeyPut(fields[1..], k, v, j);
    }
  }

  /** After `del d[k]` on a dict, `k` is gone and every other key reads as before. */
  lemma {:induction false} LookupDelete(fields: seq<Field>, k: string, j: string)
    requires UniqueKeys(fields)
    ensures !HasKey(Delete(fields, k), k)
    ensures j != k ==> Lookup(Delete(fields, k), j) == Lookup(fields, j)
  {
    if fields != [] && fields[0].0 != k {
      LookupDelete(fields[1..], k, j);
    }
  }

  /** `del d[k]` keeps the keys distinct, and every other key stays present. */
  lemma {:induction false} DeleteUnique(fields: seq<Field>, k: string, j: string)
    requires UniqueKeys(fields)
    ensures UniqueKeys(Delete(fields, k))
    ensures j != k ==> (HasKey(Delete(fields, k), j) <==> HasKey(fields, j))
  {
    if fields != [] && fields[0].0 != k {
      DeleteUnique(fields[1..], k, j);
      DeleteUnique(fields[1..], k, fields[0].0);
      assert Delete(fields, k)[1..] == Delete(fields[1..], k);
    }
  }
}
