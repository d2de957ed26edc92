/** Decoded JSON values, as the log pipeline receives them from its JSON
    decoder, together with the pieces of Python semantics the pipeline relies
    on when it subscripts, iterates, compares, hashes and converts them:
    `x[key]`, `x.get(key, default)`, `for e in x`, `==`, dictionary keys,
    `int(x)`, `3 - x`, and the first-match idiom `[f(e) for e in xs if p(e)][0]`.
    Every Python exception the pipeline can raise becomes an `Err` value. */
module PyJson {

  datatype Option<+T> = None | Some(value: T)

  /** The Python exceptions the pipeline can raise (JSONDecodeError is
      `DecodeError`; a failed HTTP connection is `ConnectionError`). */
  datatype PyError =
    | KeyError(key: Json)
    | IndexError
    | TypeError
    | AttributeError
    | ValueError
    | DecodeError
    | ConnectionError

  /** A Python computation: it returns a value or raises. */
  datatype Result<+T> = Ok(value: T) | Err(error: PyError) {
    predicate IsFailure() { Err? }
    function PropagateFailure<U>(): Result<U> requires Err? { Err(error) }
    function Extract(): T requires Ok? { value }
  }

  /** A value produced by `json.loads`: null, true/false, an integer, a
      string, a list or a dict. */
  datatype Json =
    | JNull
    | JBool(b: bool)
    | JNum(n: int)
    | JStr(s: string)
    | JArr(items: seq<Json>)
    | JObj(fields: map<string, Json>)

  /** `json.loads`, left abstract: `None` when the text is not valid JSON. */
  type Decoder = string -> Option<Json>

  /** `json.loads(text)`, raising on malformed text. */
  function Loads(decode: Decoder, text: string): Result<Json>
  {
    match decode(text)
    case Some(j) => Ok(j)
    case None => Err(DecodeError)
  }

  /** `j[key]` for a string key: a dict yields the value or raises KeyError;
      subscripting a list, a string, a number or None with a string raises
      TypeError. */
  function Get(j: Json, key: string): (r: Result<Json>)
    ensures r.Ok? <==> j.JObj? && key in j.fields
    ensures r.Ok? ==> r.value == j.fields[key]
    ensures r.Err? && j.JObj? ==> r.error == KeyError(JStr(key))
    ensures r.Err? && !j.JObj? ==> r.error == TypeError
  {
    match j
    case JObj(fields) => if key in fields then Ok(fields[key]) else Err(KeyError(JStr(key)))
    case _ => Err(TypeError)
  }

  /** `j.get(key, default)`: only a dict has `.get`. */
  function DictGet(j: Json, key: string, default: Json): (r: Result<Json>)
    ensures r.Ok? <==> j.JObj?
    ensures r.Ok? ==> r.value == if key in j.fields then j.fields[key] else default
    ensures !j.JObj? ==> r == Err(AttributeError)
  {
    match j
    case JObj(fields) => Ok(if key in fields then fields[key] else default)
    case _ => Err(AttributeError)
  }

  /** The elements `for e in j` visits. A list yields its items; numbers,
      booleans and None are not iterable. A non-empty dict or string yields
      strings, and every loop of the pipeline subscripts each element with a
      string key, which raises TypeError on a string: so a non-empty dict or
      string fails here, at its first element, and an empty one yields
      nothing, as in Python. */
  function Elements(j: Json): (r: Result<seq<Json>>)
    ensures j.JArr? ==> r == Ok(j.items)
    ensures r.Ok? && !j.JArr? ==> r.value == []
    ensures (j.JObj? && |j.fields| > 0) || (j.JStr? && j.s != []) ==> r == Err(TypeError)
    ensures (j.JObj? && |j.fields| == 0) || (j.JStr? && j.s == []) ==> r == Ok([])
    ensures j.JNull? || j.JBool? || j.JNum? ==> r == Err(TypeError)
  {
    match j
    case JArr(items) => Ok(items)
    case JObj(fields) => if |fields| == 0 then Ok([]) else Err(TypeError)
    case JStr(s) => if s == [] then Ok([]) else Err(TypeError)
    case _ => Err(TypeError)
  }

  /** The integer a number or a boolean stands for in Python arithmetic
      (`True == 1`, `3 - True == 2`). */
  function AsNumber(j: Json): Option<int>
  {
    match j
    case JNum(n) => Some(n)
    case JBool(b) => Some(if b then 1 else 0)
    case _ => None
  }

  /** Python `a == b` on decoded values: numbers and booleans compare by
      value, everything else structurally. */
  predicate PyEquals(a: Json, b: Json)
  {
    match (AsNumber(a), AsNumber(b))
    case (Some(x), Some(y)) => x == y
    case _ => a == b
  }

  /** `3 - j` and the like need a number; anything else raises TypeError. */
  function Number(j: Json): (r: Result<int>)
    ensures r.Ok? <==> j.JNum? || j.JBool?
    ensures j.JNum? ==> r == Ok(j.n)
    ensures j.JBool? ==> r == Ok(if j.b then 1 else 0)
    ensures r.Err? ==> r.error == TypeError
  {
    match AsNumber(j)
    case Some(n) => Ok(n)
    case None => Err(TypeError)
  }

  /** The dictionary key that `j` stands for: lists and dicts are unhashable
      (TypeError); `True` and `1` are the same key. */
  function HashKey(j: Json): Result<Json>
  {
    match j
    case JArr(_) => Err(TypeError)
    case JObj(_) => Err(TypeError)
    case JBool(b) => Ok(JNum(if b then 1 else 0))
    case _ => Ok(j)
  }

  /** A dict finds the entry of a hashable key exactly when the key is
      Python-equal to the one it was stored under. */
  lemma HashKeyIsEquality(a: Json, b: Json)
    requires HashKey(a).Ok? && HashKey(b).Ok?
    ensures HashKey(a) == HashKey(b) <==> PyEquals(a, b)
  {
  }

  predicate IsDigit(ch: char) { '0' <= ch <= '9' }

  predicate AllDigits(s: string) { forall k :: 0 <= k < |s| ==> IsDigit(s[k]) }

  /** The value of a string of decimal digits, most significant first. */
  function DigitsValue(s: string): nat
    requires AllDigits(s)
  {
    if s == [] then 0
    else 10 * DigitsValue(s[..|s| - 1]) + (s[|s| - 1] as int - '0' as int)
  }

  /** `int(s)` for a string: an optional sign followed by one or more
      decimal digits; anything else raises ValueError (`None` here). */
  function ParseInt(s: string): Option<int>
  {
    var negative := |s| > 0 && s[0] == '-';
    var digits := if |s| > 0 && (s[0] == '-' || s[0] == '+') then s[1..] else s;
    if digits == [] || !AllDigits(digits) then None
    else
      var v: int := DigitsValue(digits);
      Some(if negative then -v else v)
  }

  function DigitChar(d: nat): char
    requires d < 10
  {
    ('0' as int + d) as char
  }

  /** `str(n)` for a natural number. */
  function NatToDecimal(n: nat): string
  {
    if n < 10 then [DigitChar(n)] else NatToDecimal(n / 10) + [DigitChar(n % 10)]
  }

  /** `str(n)` for an integer. */
  function IntToDecimal(n: int): string
  {
    if n < 0 then "-" + NatToDecimal(-n) else NatToDecimal(n)
  }

  lemma {:induction false} NatToDecimalDigits(n: nat)
    ensures |NatToDecimal(n)| > 0 && AllDigits(NatToDecimal(n))
    ensures DigitsValue(NatToDecimal(n)) == n
  {
    if n >= 10 {
      NatToDecimalDigits(n / 10);
      var s := NatToDecimal(n);
      assert s[..|s| - 1] == NatToDecimal(n / 10);
    }
  }

  /** `int(str(n)) == n`: the parser reads back every integer the way Python
      prints it. */
  lemma ParseIntRoundTrip(n: int)
    ensures ParseInt(IntToDecimal(n)) == Some(n)
  {
    var s := IntToDecimal(n);
    if n < 0 {
      var m: nat := -n;
      NatToDecimalDigits(m);
      assert s == "-" + NatToDecimal(m);
      assert s[0] == '-' && s[1..] == NatToDecimal(m);
    } else {
      NatToDecimalDigits(n);
      assert IsDigit(s[0]);
    }
  }

  /** `int(j)`: integers and booleans convert, strings are parsed (a string
      that does not parse raises ValueError), anything else raises
      TypeError. */
  function IntOf(j: Json): (r: Result<int>)
    ensures j.JNum? ==> r == Ok(j.n)
    ensures j.JBool? ==> r == Ok(if j.b then 1 else 0)
    ensures j.JStr? ==> (r.Ok? <==> ParseInt(j.s).Some?)
    ensures j.JStr? && r.Ok? ==> ParseInt(j.s) == Some(r.value)
    ensures j.JStr? && r.Err? ==> r.error == ValueError
    ensures j.JNull? || j.JArr? || j.JObj? ==> r == Err(TypeError)
  {
    match j
    case JStr(s) =>
      (match ParseInt(s)
       case Some(n) => Ok(n)
       case None => Err(ValueError))
    case _ => Number(j)
  }

  /** `[f(x) for x in xs]`, evaluated left to right; the first exception
      raised ends it. */
  function MapResult<S, T>(xs: seq<S>, f: S -> Result<T>): (r: Result<seq<T>>)
    ensures r.Ok? <==> forall k :: 0 <= k < |xs| ==> f(xs[k]).Ok?
    ensures r.Ok? ==> |r.value| == |xs|
    ensures r.Ok? ==> forall k :: 0 <= k < |xs| ==> f(xs[k]) == Ok(r.value[k])
    decreases |xs|
  {
    if xs == [] then Ok([])
    else
      var y :- f(xs[0]);
      var rest :- MapResult(xs[1..], f);
      Ok([y] + rest)
  }

  /** `[proj(x) for x in xs if keep(x)]`, evaluated left to right: the
      condition on each element, then the projection of each kept element;
      the first exception raised ends the whole comprehension. */
  function Comprehension<S, T>(xs: seq<S>, keep: S -> Result<bool>, proj: S -> Result<T>): Result<seq<T>>
    decreases |xs|
  {
    if xs == [] then Ok([])
    else
      var k :- keep(xs[0]);
      if k then
        var y :- proj(xs[0]);
        var rest :- Comprehension(xs[1..], keep, proj);
        Ok([y] + rest)
      else
        Comprehension(xs[1..], keep, proj)
  }

  /** `[proj(x) for x in xs if keep(x)][0]`: IndexError when nothing is kept. */
  function First<S, T>(xs: seq<S>, keep: S -> Result<bool>, proj: S -> Result<T>): Result<T>
  {
    var ys :- Comprehension(xs, keep, proj);
    if |ys| == 0 then Err(IndexError) else Ok(ys[0])
  }

  /** `i` is the first position whose element passes `keep`. */
  ghost predicate IsFirst<S>(xs: seq<S>, keep: S -> Result<bool>, i: int)
  {
    && 0 <= i < |xs|
    && keep(xs[i]) == Ok(true)
    && forall j :: 0 <= j < i ==> keep(xs[j]) == Ok(false)
  }

  lemma {:induction false} ComprehensionHead<S, T>(xs: seq<S>, keep: S -> Result<bool>, proj: S -> Result<T>, ys: seq<T>)
    requires Comprehension(xs, keep, proj) == Ok(ys)
    ensures |ys| > 0 ==> exists i :: IsFirst(xs, keep, i) && proj(xs[i]) == Ok(ys[0])
    ensures |ys| == 0 ==> forall i :: 0 <= i < |xs| ==> keep(xs[i]) == Ok(false)
    decreases |xs|
  {
    if xs != [] {
      var k := keep(xs[0]).value;
      if k {
        assert IsFirst(xs, keep, 0);
      } else {
        ComprehensionHead(xs[1..], keep, proj, ys);
        if |ys| > 0 {
          var i :| IsFirst(xs[1..], keep, i) && proj(xs[1..][i]) == Ok(ys[0]);
          assert IsFirst(xs, keep, i + 1);
        } else {
          forall i | 0 <= i < |xs| ensures keep(xs[i]) == Ok(false) {
            if i > 0 { assert xs[i] == xs[1..][i - 1]; }
          }
        }
      }
    }
  }

  lemma {:induction false} ComprehensionNoneKept<S, T>(xs: seq<S>, keep: S -> Result<bool>, proj: S -> Result<T>)
    requires forall i :: 0 <= i < |xs| ==> keep(xs[i]) == Ok(false)
    ensures Comprehension(xs, keep, proj) == Ok([])
    decreases |xs|
  {
    if xs != [] {
      assert keep(xs[0]) == Ok(false);
      forall i | 0 <= i < |xs[1..]| ensures keep(xs[1..][i]) == Ok(false) {
        assert xs[1..][i] == xs[i + 1];
      }
      ComprehensionNoneKept(xs[1..], keep, proj);
    }
  }

  /** Element `i` raises `e`: in its condition, or in its projection once kept. */
  ghost predicate RaisedAt<S, T>(xs: seq<S>, keep: S -> Result<bool>, proj: S -> Result<T>, i: int, e: PyError)
  {
    && 0 <= i < |xs|
    && (keep(xs[i]) == Err(e) || (keep(xs[i]) == Ok(true) && proj(xs[i]) == Err(e)))
  }

  /** A comprehension only raises what one of its elements raised. */
  lemma {:induction false} ComprehensionErrors<S, T>(xs: seq<S>, keep: S -> Result<bool>, proj: S -> Result<T>)
    requires Comprehension(xs, keep, proj).Err?
    ensures exists i :: RaisedAt(xs, keep, proj, i, Comprehension(xs, keep, proj).error)
    decreases |xs|
  {
    var e := Comprehension(xs, keep, proj).error;
    if keep(xs[0]).Err? || (keep(xs[0]) == Ok(true) && proj(xs[0]).Err?) {
      assert RaisedAt(xs, keep, proj, 0, e);
    } else {
      assert Comprehension(xs[1..], keep, proj) == Err(e);
      ComprehensionErrors(xs[1..], keep, proj);
      var i :| RaisedAt(xs[1..], keep, proj, i, e);
      assert xs[1..][i] == xs[i + 1];
      assert RaisedAt(xs, keep, proj, i + 1, e);
    }
  }

  /** The first-match idiom raises IndexError when nothing is kept, and
      otherwise only what one of the elements raised. */
  lemma FirstErrors<S, T>(xs: seq<S>, keep: S -> Result<bool>, proj: S -> Result<T>)
    requires First(xs, keep, proj).Err?
    ensures || First(xs, keep, proj).error == IndexError
            || exists i :: RaisedAt(xs, keep, proj, i, First(xs, keep, proj).error)
  {
    if Comprehension(xs, keep, proj).Err? {
      ComprehensionErrors(xs, keep, proj);
    }
  }

  /** The first-match idiom picks the projection of the first kept element,
      and raises IndexError when every element is rejected. */
  lemma FirstPicksFirstMatch<S, T>(xs: seq<S>, keep: S -> Result<bool>, proj: S -> Result<T>)
    ensures First(xs, keep, proj).Ok? ==>
              exists i :: IsFirst(xs, keep, i) && proj(xs[i]) == First(xs, keep, proj)
    ensures (forall i :: 0 <= i < |xs| ==> keep(xs[i]) == Ok(false)) ==>
              First(xs, keep, proj) == Err(IndexError)
  {
    var c := Comprehension(xs, keep, proj);
    if c.Ok? {
      ComprehensionHead(xs, keep, proj, c.value);
    }
    if forall i :: 0 <= i < |xs| ==> keep(xs[i]) == Ok(false) {
      ComprehensionNoneKept(xs, keep, proj);
    }
  }

  /** No element raises: every condition evaluates, and every kept element's
      projection evaluates. */
  ghost predicate NoneRaises<S, T>(xs: seq<S>, keep: S -> Result<bool>, proj: S -> Result<T>)
    decreases |xs|
  {
    xs != [] ==>
      && keep(xs[0]).Ok?
      && (keep(xs[0]) == Ok(true) ==> proj(xs[0]).Ok?)
      && NoneRaises(xs[1..], keep, proj)
  }

  /** `NoneRaises` element by element. */
  lemma {:induction false} NoneRaisesEach<S, T>(xs: seq<S>, keep: S -> Result<bool>, proj: S -> Result<T>)
    ensures NoneRaises(xs, keep, proj) <==>
              forall j :: 0 <= j < |xs| ==> keep(xs[j]).Ok? && (keep(xs[j]) == Ok(true) ==> proj(xs[j]).Ok?)
    decreases |xs|
  {
    if xs != [] {
      NoneRaisesEach(xs[1..], keep, proj);
      assert forall j :: 0 < j < |xs| ==> xs[j] == xs[1..][j - 1];
    }
  }

  /** A comprehension in which no element raises succeeds. */
  lemma {:induction false} ComprehensionSucceeds<S, T>(xs: seq<S>, keep: S -> Result<bool>, proj: S -> Result<T>)
    requires NoneRaises(xs, keep, proj)
    ensures Comprehension(xs, keep, proj).Ok?
    decreases |xs|
  {
    if xs != [] {
      ComprehensionSucceeds(xs[1..], keep, proj);
    }
  }

  /** When no element raises and some element is kept, the first-match idiom
      succeeds with the projection of the first kept element. */
  lemma FirstFindsFirst<S, T>(xs: seq<S>, keep: S -> Result<bool>, proj: S -> Result<T>, i: int)
    requires NoneRaises(xs, keep, proj)
    requires IsFirst(xs, keep, i)
    ensures First(xs, keep, proj) == proj(xs[i])
  {
    ComprehensionSucceeds(xs, keep, proj);
    var ys := Comprehension(xs, keep, proj).value;
    ComprehensionHead(xs, keep, proj, ys);
    var i' :| IsFirst(xs, keep, i') && proj(xs[i']) == Ok(ys[0]);
    assert i' == i;
  }
}
