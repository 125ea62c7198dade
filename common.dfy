/** Shared vocabulary: optional values, the dynamically typed values that the
    SQLite rows and Python dictionaries carry, and the error outcomes of the
    web handlers. */
module Common {

  datatype Option<T> = None | Some(value: T)

  /** A value stored in a row dictionary: Python's None, an int or a str. */
  datatype Value = Null | Int(i: int) | Str(s: string)

  /** A row as returned by the database layer (`dict(row)`): column name to value. */
  type Row = map<string, Value>

  /** The exceptions and "not found" answers a handler can end in. */
  datatype Error = NotFound | KeyError(key: string) | TypeError

  datatype Result<T> = Ok(value: T) | Err(error: Error)

  /** Python's `d.get(key, default)`. */
  function Get(row: Row, key: string, default: Value): Value {
    if key in row then row[key] else default
  }

  /** Truthiness of an optional string (`if v:` on a `str` or `None`). */
  predicate Truthy(v: Option<string>) {
    v.Some? && v.value != ""
  }

  /** A non-empty sequence is its prefix followed by its last element. */
  lemma SnocSplit<T>(s: seq<T>)
    requires s != []
    ensures s == s[..|s| - 1] + [s[|s| - 1]]
  {
  }

  /** Taking one more element appends it. */
  lemma TakeSnoc<T>(s: seq<T>, i: nat)
    requires i < |s|
    ensures s[..i + 1] == s[..i] + [s[i]]
  {
  }

  /** Slicing a suffix `t` of `s` that starts at `a`. */
  lemma SuffixSlices<T>(s: seq<T>, t: seq<T>, a: nat, n: nat)
    requires a <= |s| && t == s[a..] && n <= |t|
    ensures s[a..a + n] == t[..n]
    ensures s[a + n..] == t[n..]
  {
  }

  function Min(a: int, b: int): (m: int)
    ensures m <= a && m <= b
    ensures m == a || m == b
  {
    if a <= b then a else b
  }
}
