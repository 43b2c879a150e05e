/** A decoded JSON request body, and the handful of Python operations the
    webhook applies to it: `key in v`, `v.get(key)`, `v[key]`, truthiness
    and `str(v)`. Each operation is total here and reports, as an
    `Exception`, exactly the cases in which Python raises. */
module Json {
  import opened Exceptions
  import Text

  /** Python's view of a JSON value: None, bool, int, str, list or dict. */
  datatype Json =
    | JNull
    | JBool(b: bool)
    | JNum(n: int)
    | JStr(s: string)
    | JArr(items: seq<Json>)
    | JObj(fields: map<string, Json>)

  /** None, a bool or a number: the values that are not containers. */
  predicate Scalar(v: Json) {
    v.JNull? || v.JBool? || v.JNum?
  }

  /** `sub` occurs as a contiguous piece of `s` (Python's `sub in s` on strings). */
  predicate Substring(sub: string, s: string) {
    sub <= s || (|s| > 0 && Substring(sub, s[1..]))
  }

  /** `key in v`: dict key test, list membership, substring test; any other
      value is not iterable. */
  function Contains(v: Json, key: string): (r: Result<bool>)
    ensures r.Err? ==> r.error == TypeError
    ensures v.JObj? ==> r == Ok(key in v.fields)
    ensures v.JArr? ==> r == Ok(JStr(key) in v.items)
    ensures v.JStr? ==> r == Ok(Substring(key, v.s))
  {
    match v
    case JObj(fields) => Ok(key in fields)
    case JArr(items) => Ok(JStr(key) in items)
    case JStr(s) => Ok(Substring(key, s))
    case _ => Err(TypeError)
  }

  /** `in` raises exactly on values that are not containers. */
  lemma ContainsRaisesExactly(v: Json, key: string)
    ensures Contains(v, key).Err? <==> Scalar(v)
  {
  }

  /** The value a dict holds under `key`, or `default` when it has none. */
  function FieldOr(fields: map<string, Json>, key: string, default: Json): Json {
    if key in fields then fields[key] else default
  }

  /** `v.get(key, default)`: only a dict has `get`, and it never raises
      KeyError. */
  function GetOr(v: Json, key: string, default: Json): (r: Result<Json>)
    ensures v.JObj? ==> r == Ok(FieldOr(v.fields, key, default))
    ensures r.Err? ==> r.error == AttributeError
  {
    match v
    case JObj(fields) => Ok(FieldOr(fields, key, default))
    case _ => Err(AttributeError)
  }

  /** `v.get(key)`, whose default is None. */
  function Get(v: Json, key: string): (r: Result<Json>)
    ensures v.JObj? && key !in v.fields ==> r == Ok(JNull)
    ensures r.Err? ==> r.error == AttributeError
  {
    GetOr(v, key, JNull)
  }

  /** `get` raises exactly on values that are not dicts. */
  lemma GetRaisesExactly(v: Json, key: string, default: Json)
    ensures GetOr(v, key, default).Err? <==> !v.JObj?
  {
  }

  /** `v[key]` with a str key: a dict raises KeyError for a missing key, and
      None, numbers, strings and lists cannot be indexed by a str. */
  function Index(v: Json, key: string): (r: Result<Json>)
    ensures r.Err? ==> r.error == (if v.JObj? then KeyError(key) else TypeError)
    ensures v.JObj? && key in v.fields ==> r == Ok(v.fields[key])
  {
    match v
    case JObj(fields) => if key in fields then Ok(fields[key]) else Err(KeyError(key))
    case _ => Err(TypeError)
  }

  /** `v[key]` raises exactly on a value that is not a dict, or a dict
      without the key. */
  lemma IndexRaisesExactly(v: Json, key: string)
    ensures Index(v, key).Err? <==> !v.JObj? || key !in v.fields
  {
  }

  /** On a dict, `key in d` holds exactly when `d[key]` does not raise, and
      `d.get(key)` then agrees with `d[key]`; otherwise `d[key]` raises
      KeyError while `d.get(key)` gives None. */
  lemma DictAccessAgrees(v: Json, key: string)
    requires v.JObj?
    ensures Contains(v, key) == Ok(true) <==> Index(v, key).Ok?
    ensures Index(v, key).Ok? ==> Get(v, key) == Index(v, key)
    ensures Index(v, key).Err? ==> Index(v, key) == Err(KeyError(key)) && Get(v, key) == Ok(JNull)
  {
  }

  /** A piece of a string at any position is found by `in`. */
  lemma SubstringAt(sub: string, s: string, i: nat)
    requires i + |sub| <= |s| && s[i..i + |sub|] == sub
    ensures Substring(sub, s)
    decreases i
  {
    if i > 0 {
      assert s[1..][i - 1..i - 1 + |sub|] == sub;
      SubstringAt(sub, s[1..], i - 1);
    }
  }

  /** What `in` finds in a string occurs there at some position. */
  lemma SubstringPosition(sub: string, s: string) returns (i: nat)
    requires Substring(sub, s)
    ensures i + |sub| <= |s| && s[i..i + |sub|] == sub
  {
    if sub <= s {
      i := 0;
    } else {
      var j := SubstringPosition(sub, s[1..]);
      i := j + 1;
      assert s[i..i + |sub|] == s[1..][j..j + |sub|];
    }
  }

  /** Python truthiness: None, False, 0 and empty containers are false. */
  predicate Truthy(v: Json) {
    match v
    case JNull => false
    case JBool(b) => b
    case JNum(n) => n != 0
    case JStr(s) => s != ""
    case JArr(items) => items != []
    case JObj(fields) => fields != map[]
  }

  /** The six falsy JSON values are exactly the ones Python's truth test
      rejects. */
  lemma FalsyValues(v: Json)
    ensures !Truthy(v) <==>
      v == JNull || v == JBool(false) || v == JNum(0) || v == JStr("") || v == JArr([]) || v == JObj(map[])
  {
  }

  /** Python's `str(n)` for an int. */
  function IntString(n: int): (s: string)
    ensures |s| >= 1
  {
    if n < 0 then "-" + Text.Decimal(-n) else Text.Decimal(n)
  }

  /** Reads back a rendering of `IntString`. */
  function ParseInt(s: string): int
    requires |s| >= 1
    requires Text.AllDigits(if s[0] == '-' then s[1..] else s)
  {
    if s[0] == '-' then -(Text.Value(s[1..]) as int) else Text.Value(s)
  }

  /** `str(n)` loses nothing: reading it back gives `n`. */
  lemma IntStringRoundTrip(n: int)
    ensures var s := IntString(n);
      Text.AllDigits(if s[0] == '-' then s[1..] else s) && ParseInt(s) == n
  {
    var s := IntString(n);
    if n < 0 {
      assert s[1..] == Text.Decimal(-n);
      Text.ValueDecimal(-n);
    } else {
      Text.ValueDecimal(n);
    }
  }

  /** Python's `str(v)`. A list or dict is rendered as a fixed placeholder
      rather than Python's insertion-ordered repr (a `map` has no order). */
  function PyStr(v: Json): (s: string)
    ensures v.JStr? ==> s == v.s
    ensures v.JNum? ==> s == IntString(v.n)
  {
    match v
    case JNull => "None"
    case JBool(b) => if b then "True" else "False"
    case JNum(n) => IntString(n)
    case JStr(s) => s
    case JArr(_) => "[...]"
    case JObj(_) => "{...}"
  }

  /** `str()` of None, a bool or an int loses nothing: two such values with
      the same text are equal. */
  lemma ScalarStrInjective(a: Json, b: Json)
    requires Scalar(a) && Scalar(b)
    requires PyStr(a) == PyStr(b)
    ensures a == b
  {
    if a.JNum? {
      IntStringRoundTrip(a.n);
      NumberTextStart(a.n);
    }
    if b.JNum? {
      IntStringRoundTrip(b.n);
      NumberTextStart(b.n);
    }
  }

  /** `str(n)` starts with a minus sign or a digit, never a letter. */
  lemma NumberTextStart(n: int)
    ensures IntString(n)[0] == '-' || Text.IsDigit(IntString(n)[0])
  {
  }
}
