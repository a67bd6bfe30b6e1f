/**
 * The slice of Python's runtime that the scraper's core leans on: JSON values
 * as `json.loads` hands them to Python code, truthiness, `dict.get`, the `or`
 * operator, `str.isdigit` with `int()`, `str.lower`, `str.replace`,
 * `str.join` and `os.path.join` (POSIX flavour). `Split` is not used by the
 * scraper: it is the inverse of the newline join, used to state that the XML
 * text loses no line.
 */
module PyRuntime {

  datatype Option<+T> = None | Some(value: T)

  /** The exceptions the modelled code can raise. */
  datatype PyError = AttributeError(name: string) | ValueError(message: string)

  datatype Result<+T> = Ok(value: T) | Err(error: PyError)

  /**
   * A decoded JSON value. A JSON object becomes a Python dict, kept here as
   * its items in insertion order. Floats are opaque: only whether they equal
   * zero (their truthiness) matters to the core.
   */
  datatype Json =
    | JNull
    | JBool(b: bool)
    | JInt(i: int)
    | JFloat(isZero: bool)
    | JStr(s: string)
    | JList(items: seq<Json>)
    | JMap(entries: seq<(string, Json)>)

  /** The items of a Python dict, in insertion order. */
  type Dict = seq<(string, Json)>

  /** Python truthiness: None, False, 0, 0.0, "", [] and {} are false. */
  predicate Truthy(v: Json) {
    match v
    case JNull => false
    case JBool(b) => b
    case JInt(i) => i != 0
    case JFloat(z) => !z
    case JStr(s) => s != ""
    case JList(xs) => xs != []
    case JMap(es) => es != []
  }

  /** `isinstance(v, int)`: Python's bool is a subclass of int. */
  predicate IsInt(v: Json) {
    v.JInt? || v.JBool?
  }

  function Keys(d: Dict): seq<string> {
    seq(|d|, i requires 0 <= i < |d| => d[i].0)
  }

  /** The value stored under `key`, if the dict holds that key (the first one). */
  function Lookup(d: Dict, key: string): Option<Json> {
    if d == [] then None
    else if d[0].0 == key then Some(d[0].1)
    else Lookup(d[1..], key)
  }

  /** A lookup finds something exactly when the key is present, and then an item with that key. */
  lemma {:induction false} LookupSpec(d: Dict, key: string)
    ensures Lookup(d, key).None? <==> key !in Keys(d)
    ensures Lookup(d, key).Some? ==> exists i :: 0 <= i < |d| && d[i] == (key, Lookup(d, key).value)
  {
    if d != [] {
      assert Keys(d) == [d[0].0] + Keys(d[1..]);
      if d[0].0 != key {
        LookupSpec(d[1..], key);
        if Lookup(d, key).Some? {
          var i :| 0 <= i < |d[1..]| && d[1..][i] == (key, Lookup(d, key).value);
          assert d[i + 1] == (key, Lookup(d, key).value);
        }
      }
    }
  }

  lemma LookupSingle(k: string, v: Json, key: string)
    ensures Lookup([(k, v)], key) == if k == key then Some(v) else None
  {
    assert [(k, v)][1..] == [];
  }

  /** `d.get(key)`: a missing key reads as None. */
  function Get(d: Dict, key: string): Json {
    match Lookup(d, key)
    case Some(v) => v
    case None => JNull
  }

  /** `d.get(key, default)`. */
  function GetOr(d: Dict, key: string, default: Json): Json {
    match Lookup(d, key)
    case Some(v) => v
    case None => default
  }

  /**
   * `cs[0] or cs[1] or ... or cs[n-1]`: the first truthy operand, or the last
   * operand when none is truthy.
   */
  function FirstTruthy(cs: seq<Json>): (r: Json)
    requires |cs| > 0
    ensures r in cs
    ensures Truthy(r) || r == cs[|cs| - 1]
  {
    if |cs| == 1 || Truthy(cs[0]) then cs[0] else FirstTruthy(cs[1..])
  }

  /** First truthy wins: the operand at the first truthy position decides. */
  lemma {:induction false} FirstTruthyWins(cs: seq<Json>, k: nat)
    requires k < |cs|
    requires forall j :: 0 <= j < k ==> !Truthy(cs[j])
    requires Truthy(cs[k]) || k == |cs| - 1
    ensures FirstTruthy(cs) == cs[k]
  {
    if k > 0 {
      assert !Truthy(cs[0]);
      FirstTruthyWins(cs[1..], k - 1);
    }
  }

  /** An `or` chain is truthy exactly when one of its operands is. */
  lemma {:induction false} FirstTruthyIsTruthy(cs: seq<Json>)
    requires |cs| > 0
    ensures Truthy(FirstTruthy(cs)) <==> exists j :: 0 <= j < |cs| && Truthy(cs[j])
  {
    if |cs| > 1 && !Truthy(cs[0]) {
      FirstTruthyIsTruthy(cs[1..]);
      if exists j :: 0 <= j < |cs| && Truthy(cs[j]) {
        var j :| 0 <= j < |cs| && Truthy(cs[j]);
        assert j != 0;
        assert Truthy(cs[1..][j - 1]);
      }
    }
  }

  predicate IsAsciiDigit(c: char) {
    '0' <= c <= '9'
  }

  /** `s.isdigit()`, restricted to the ASCII digits. */
  predicate IsDigits(s: string) {
    |s| > 0 && forall i :: 0 <= i < |s| ==> IsAsciiDigit(s[i])
  }

  /** `int(s)` for a string of ASCII digits, read in base 10. */
  function DecimalValue(s: string): nat
    requires forall i :: 0 <= i < |s| ==> IsAsciiDigit(s[i])
  {
    if s == [] then 0
    else
      assert IsAsciiDigit(s[|s| - 1]);
      10 * DecimalValue(s[..|s| - 1]) + (s[|s| - 1] as int - '0' as int)
  }

  /** `str(n)` for a natural number. */
  function DecimalString(n: nat): (s: string)
    ensures IsDigits(s)
  {
    var d := ('0' as int + n % 10) as char;
    if n < 10 then [d] else DecimalString(n / 10) + [d]
  }

  /** `int(str(n)) == n`. */
  lemma {:induction false} DecimalRoundTrip(n: nat)
    ensures DecimalValue(DecimalString(n)) == n
  {
    var s := DecimalString(n);
    if n >= 10 {
      DecimalRoundTrip(n / 10);
      assert s[..|s| - 1] == DecimalString(n / 10);
    }
  }

  /** `str(n)` has no leading zero: only zero itself is written starting with '0'. */
  lemma {:induction false} DecimalNoLeadingZero(n: nat)
    ensures DecimalString(n)[0] == '0' <==> n == 0
  {
    if n >= 10 {
      DecimalNoLeadingZero(n / 10);
    }
  }

  function LowerChar(c: char): char {
    if 'A' <= c <= 'Z' then (c as int + 32) as char else c
  }

  /** `s.lower()`, for the ASCII letters. */
  function Lower(s: string): (r: string)
    ensures |r| == |s|
    ensures forall i :: 0 <= i < |s| ==> r[i] == LowerChar(s[i])
  {
    if s == [] then [] else [LowerChar(s[0])] + Lower(s[1..])
  }

  lemma {:induction false} LowerIdempotent(s: string)
    ensures Lower(Lower(s)) == Lower(s)
  {
    if s != [] {
      LowerIdempotent(s[1..]);
    }
  }

  /** Concatenation is associative (a helper for the proofs that regroup lines or records). */
  lemma ConcatAssoc<T>(a: seq<T>, b: seq<T>, c: seq<T>)
    ensures a + b + c == a + (b + c)
  {
  }

  /** `s.replace(target, replacement)` for a one-character target. */
  function Replace(s: string, target: char, replacement: string): string {
    if s == [] then []
    else (if s[0] == target then replacement else [s[0]]) + Replace(s[1..], target, replacement)
  }

  /** Nothing to replace: the string comes back unchanged. */
  lemma {:induction false} ReplaceUnchanged(s: string, target: char, replacement: string)
    requires target !in s
    ensures Replace(s, target, replacement) == s
  {
    if s != [] {
      ReplaceUnchanged(s[1..], target, replacement);
      assert [s[0]] + s[1..] == s;
    }
  }

  /** A character found in neither the string nor the replacement is not in the result. */
  lemma {:induction false} ReplaceKeepsAbsent(s: string, target: char, replacement: string, c: char)
    requires c !in s && c !in replacement
    ensures c !in Replace(s, target, replacement)
  {
    if s != [] {
      assert c != s[0] && c !in s[1..];
      ReplaceKeepsAbsent(s[1..], target, replacement, c);
    }
  }

  /** Every occurrence of the target is replaced, so none remains unless the replacement brings it. */
  lemma {:induction false} ReplaceRemoves(s: string, target: char, replacement: string)
    requires target !in replacement
    ensures target !in Replace(s, target, replacement)
  {
    if s != [] {
      ReplaceRemoves(s[1..], target, replacement);
    }
  }

  lemma {:induction false} ReplaceAppend(a: string, b: string, target: char, replacement: string)
    ensures Replace(a + b, target, replacement) == Replace(a, target, replacement) + Replace(b, target, replacement)
  {
    if a == [] {
      assert a + b == b;
    } else {
      assert (a + b)[0] == a[0] && (a + b)[1..] == a[1..] + b;
      ReplaceAppend(a[1..], b, target, replacement);
      var head := if a[0] == target then replacement else [a[0]];
      calc {
        Replace(a + b, target, replacement);
        head + Replace(a[1..] + b, target, replacement);
        head + (Replace(a[1..], target, replacement) + Replace(b, target, replacement));
        (head + Replace(a[1..], target, replacement)) + Replace(b, target, replacement);
      }
    }
  }

  /** `sep.join(parts)`. */
  function Join(parts: seq<string>, sep: string): string {
    if parts == [] then ""
    else if |parts| == 1 then parts[0]
    else parts[0] + sep + Join(parts[1..], sep)
  }

  /** `s.split(sep)` for a one-character separator. */
  function Split(s: string, sep: char): (parts: seq<string>)
    ensures |parts| >= 1
  {
    if s == [] then [""]
    else
      var rest := Split(s[1..], sep);
      if s[0] == sep then [""] + rest else [[s[0]] + rest[0]] + rest[1..]
  }

  lemma {:induction false} SplitNoSeparator(s: string, sep: char, tail: string)
    requires sep !in s
    ensures Split(s + tail, sep) == [s + Split(tail, sep)[0]] + Split(tail, sep)[1..]
  {
    var t := Split(tail, sep);
    if s == [] {
      assert s + tail == tail;
      assert s + t[0] == t[0];
      assert t == [t[0]] + t[1..];
    } else {
      assert (s + tail)[0] == s[0] && (s + tail)[1..] == s[1..] + tail;
      assert s[0] != sep;
      SplitNoSeparator(s[1..], sep, tail);
      var rest := Split(s[1..] + tail, sep);
      assert rest[0] == s[1..] + t[0] && rest[1..] == t[1..];
      assert [s[0]] + (s[1..] + t[0]) == s + t[0];
    }
  }

  /** Splitting a join on a separator no part contains gives the parts back. */
  lemma {:induction false} SplitJoin(parts: seq<string>, sep: char)
    requires |parts| > 0
    requires forall i :: 0 <= i < |parts| ==> sep !in parts[i]
    ensures Split(Join(parts, [sep]), sep) == parts
  {
    if |parts| == 1 {
      SplitNoSeparator(parts[0], sep, "");
      assert parts[0] + "" == parts[0];
    } else {
      var rest := Join(parts[1..], [sep]);
      SplitJoin(parts[1..], sep);
      assert Split([sep] + rest, sep) == [""] + Split(rest, sep);
      assert parts[0] + [sep] + rest == parts[0] + ([sep] + rest);
      SplitNoSeparator(parts[0], sep, [sep] + rest);
      assert parts[0] + "" == parts[0];
    }
  }

  /** `os.path.join(directory, name)` with POSIX rules. */
  function PathJoin(directory: string, name: string): (path: string)
    ensures |path| >= |name| && path[|path| - |name|..] == name
    ensures (name == [] || name[0] != '/') ==> directory <= path
    ensures (name == [] || name[0] != '/') && directory != [] && directory[|directory| - 1] != '/'
            ==> path == directory + "/" + name
    ensures name != [] && name[0] == '/' ==> path == name
    ensures (name == [] || name[0] != '/') && (directory == [] || directory[|directory| - 1] == '/')
            ==> path == directory + name
  {
    if name != [] && name[0] == '/' then name
    else if directory == [] || directory[|directory| - 1] == '/' then directory + name
    else directory + "/" + name
  }
}
