/** Parsed YAML documents, and the few Python operations the core applies to them:
    dictionary lookup, truthiness, `str(x)` and `int(x)`. */
module Yaml {

  datatype Option<+T> = None | Some(value: T)

  /** A mapping key as the YAML loader produces it (scalars only). */
  datatype Key = KNull | KBool(b: bool) | KInt(i: int) | KStr(s: string)

  /** A parsed YAML value. A mapping keeps its insertion order, as a Python dict does. */
  datatype Yaml =
    | YNull
    | YBool(b: bool)
    | YInt(i: int)
    | YStr(s: string)
    | YList(items: seq<Yaml>)
    | YMap(entries: seq<(Key, Yaml)>)

  /** The value stored under a string key: the first entry with that key (`d[k]`). */
  function Find(m: seq<(Key, Yaml)>, k: string): Option<Yaml> {
    if |m| == 0 then None
    else if m[0].0 == KStr(k) then Some(m[0].1)
    else Find(m[1..], k)
  }

  /** `key in d` for a string key. */
  predicate HasKey(m: seq<(Key, Yaml)>, k: string) {
    Find(m, k).Some?
  }

  /** A key is present exactly when some entry carries it, and lookup returns the value of such
      an entry. */
  lemma {:induction false} FindSpec(m: seq<(Key, Yaml)>, k: string)
    ensures HasKey(m, k) <==> exists i :: 0 <= i < |m| && m[i].0 == KStr(k)
    ensures HasKey(m, k) ==> exists i :: 0 <= i < |m| && m[i] == (KStr(k), Find(m, k).value)
    decreases |m|
  {
    if |m| > 0 {
      FindSpec(m[1..], k);
      assert forall i :: 1 <= i < |m| ==> m[i] == m[1..][i - 1];
      if HasKey(m, k) && m[0].0 != KStr(k) {
        var i :| 0 <= i < |m[1..]| && m[1..][i] == (KStr(k), Find(m, k).value);
        assert m[i + 1] == (KStr(k), Find(m, k).value);
      }
    }
  }

  /** `d.get(k)`: absent keys read as `None`, like an explicit null. */
  function Get(m: seq<(Key, Yaml)>, k: string): Yaml {
    match Find(m, k)
    case Some(v) => v
    case None => YNull
  }

  /** `d.get(k, default)`: the default is used only when the key is absent. */
  function GetOr(m: seq<(Key, Yaml)>, k: string, default: Yaml): (r: Yaml)
    ensures !HasKey(m, k) ==> r == default
    ensures HasKey(m, k) ==> Some(r) == Find(m, k)
  {
    match Find(m, k)
    case Some(v) => v
    case None => default
  }

  /** `d[k] = v`: replaces the value in place when the key exists, appends otherwise. */
  function Put(m: seq<(Key, Yaml)>, k: string, v: Yaml): (r: seq<(Key, Yaml)>)
    ensures Find(r, k) == Some(v)
  {
    if |m| == 0 then [(KStr(k), v)]
    else if m[0].0 == KStr(k) then [(KStr(k), v)] + m[1..]
    else [m[0]] + Put(m[1..], k, v)
  }

  /** Python truthiness. */
  predicate Truthy(y: Yaml) {
    match y
    case YNull => false
    case YBool(b) => b
    case YInt(i) => i != 0
    case YStr(s) => s != ""
    case YList(xs) => |xs| > 0
    case YMap(m) => |m| > 0
  }

  predicate IsScalar(y: Yaml) {
    !y.YList? && !y.YMap?
  }

  function DigitChar(d: nat): char
    requires d < 10
  {
    "0123456789"[d]
  }

  function NatToString(n: nat): (s: string)
    ensures |s| > 0
    ensures forall i :: 0 <= i < |s| ==> '0' <= s[i] <= '9'
    decreases n
  {
    if n < 10 then [DigitChar(n)] else NatToString(n / 10) + [DigitChar(n % 10)]
  }

  /** `str(i)` for an int. */
  function IntToString(i: int): string {
    if i < 0 then "-" + NatToString(-i) else NatToString(i)
  }

  /** `str(x)` for a scalar. Lists and mappings are only ever rendered where the result is then
      rejected by `int()`, so a placeholder that is not an integer literal stands for their text. */
  function PyStr(y: Yaml): string {
    match y
    case YNull => "None"
    case YBool(b) => if b then "True" else "False"
    case YInt(i) => IntToString(i)
    case YStr(s) => s
    case YList(_) => "[...]"
    case YMap(_) => "{...}"
  }

  /** The whitespace that Python's `str.strip()` and `int()` remove (its ASCII part). */
  predicate IsSpace(c: char) {
    c == ' ' || c == '\t' || c == '\n' || c == '\r' || c == '\U{B}' || c == '\U{C}'
    || ('\U{1C}' <= c <= '\U{1F}')
  }

  function StripLeft(s: string): (r: string)
    ensures |r| <= |s|
    ensures r == [] || !IsSpace(r[0])
  {
    if |s| > 0 && IsSpace(s[0]) then StripLeft(s[1..]) else s
  }

  function StripRight(s: string): (r: string)
    ensures |r| <= |s|
    ensures r == [] || (r[0] == s[0] && !IsSpace(r[|r| - 1]))
  {
    if |s| > 0 && IsSpace(s[|s| - 1]) then StripRight(s[..|s| - 1]) else s
  }

  /** `s.strip()`. */
  function Strip(s: string): (r: string)
    ensures r == [] || (!IsSpace(r[0]) && !IsSpace(r[|r| - 1]))
  {
    StripRight(StripLeft(s))
  }

  predicate IsDigit(c: char) {
    '0' <= c <= '9'
  }

  /** The body Python's `int()` accepts after the sign: digits, with single underscores
      allowed between two digits. */
  predicate ValidDigits(d: string) {
    && |d| > 0
    && IsDigit(d[|d| - 1])
    && (|d| == 1
        || (IsDigit(d[|d| - 2]) && ValidDigits(d[..|d| - 1]))
        || (|d| >= 3 && d[|d| - 2] == '_' && ValidDigits(d[..|d| - 2])))
  }

  function DigitsValue(d: string): nat {
    if |d| == 0 then 0
    else if IsDigit(d[|d| - 1]) then DigitsValue(d[..|d| - 1]) * 10 + (d[|d| - 1] as int - '0' as int)
    else DigitsValue(d[..|d| - 1])
  }

  /** `int(t)` for a string without surrounding whitespace. */
  function ParseStripped(t: string): Option<int> {
    if |t| > 0 && (t[0] == '-' || t[0] == '+') then
      var v: int := DigitsValue(t[1..]);
      if ValidDigits(t[1..]) then Some(if t[0] == '-' then -v else v) else None
    else if ValidDigits(t) then Some(DigitsValue(t))
    else None
  }

  /** `int(s)` for a string: `None` where Python raises `ValueError`. */
  function ParseInt(s: string): Option<int> {
    ParseStripped(Strip(s))
  }

  /** `int(k)` for a mapping key: `None` for `int(None)` (a `TypeError`) and for a string
      that is not an integer literal (a `ValueError`). */
  function KeyToInt(k: Key): Option<int> {
    match k
    case KNull => None
    case KBool(b) => Some(if b then 1 else 0)
    case KInt(i) => Some(i)
    case KStr(s) => ParseInt(s)
  }

  lemma {:induction false} DigitsValueOfNat(n: nat)
    ensures ValidDigits(NatToString(n))
    ensures DigitsValue(NatToString(n)) == n
    decreases n
  {
    var s := NatToString(n);
    if n >= 10 {
      DigitsValueOfNat(n / 10);
      var p := NatToString(n / 10);
      assert s == p + [DigitChar(n % 10)];
      assert s[..|s| - 1] == p;
    }
  }

  lemma StripNoSpace(s: string)
    requires forall i :: 0 <= i < |s| ==> !IsSpace(s[i])
    ensures Strip(s) == s
  {
  }

  lemma StripOfNatToString(n: nat)
    ensures Strip(NatToString(n)) == NatToString(n)
  {
    StripNoSpace(NatToString(n));
  }

  lemma StripOfNegative(n: nat)
    ensures Strip("-" + NatToString(n)) == "-" + NatToString(n)
  {
    var s := "-" + NatToString(n);
    assert forall j :: 1 <= j < |s| ==> s[j] == NatToString(n)[j - 1];
    StripNoSpace(s);
  }

  lemma ParseStrippedOfNatToString(n: nat)
    ensures ParseStripped(NatToString(n)) == Some(n)
  {
    DigitsValueOfNat(n);
    assert IsDigit(NatToString(n)[0]);
  }

  lemma ParseStrippedOfNegative(n: nat)
    ensures ParseStripped("-" + NatToString(n)) == Some(-(n as int))
  {
    DigitsValueOfNat(n);
    assert ("-" + NatToString(n))[1..] == NatToString(n);
  }

  /** `int(str(i)) == i`: a pcm_id read as an integer becomes a snapshot key that sorts as that integer. */
  lemma {:induction false} ParseIntOfIntToString(i: int)
    ensures ParseInt(IntToString(i)) == Some(i)
  {
    if i < 0 {
      var n: nat := -i;
      var s := "-" + NatToString(n);
      StripOfNegative(n);
      ParseStrippedOfNegative(n);
      assert ParseInt(s) == Some(i);
      assert IntToString(i) == s;
    } else {
      var n: nat := i;
      StripOfNatToString(n);
      ParseStrippedOfNatToString(n);
      assert ParseInt(NatToString(n)) == Some(i);
    }
  }

  /** The keys of a mapping. */
  function KeySet(m: seq<(Key, Yaml)>): set<Key> {
    set x | x in m :: x.0
  }

  lemma {:induction false} FindAppend(m1: seq<(Key, Yaml)>, m2: seq<(Key, Yaml)>, k: string)
    ensures Find(m1 + m2, k) == if HasKey(m1, k) then Find(m1, k) else Find(m2, k)
    decreases |m1|
  {
    if |m1| > 0 {
      assert (m1 + m2)[1..] == m1[1..] + m2;
      FindAppend(m1[1..], m2, k);
    } else {
      assert m1 + m2 == m2;
    }
  }

  /** `d[k] = v` leaves every other key's value and every other entry as it was, keeps the
      length when `k` is present and grows it by one otherwise. */
  lemma {:induction false} PutSpec(m: seq<(Key, Yaml)>, k: string, v: Yaml)
    ensures forall k' :: k' != k ==> Find(Put(m, k, v), k') == Find(m, k')
    ensures |Put(m, k, v)| == if HasKey(m, k) then |m| else |m| + 1
    ensures KeySet(Put(m, k, v)) == KeySet(m) + {KStr(k)}
    ensures forall x :: x in m && x.0 != KStr(k) ==> x in Put(m, k, v)
    decreases |m|
  {
    if |m| > 0 {
      PutSpec(m[1..], k, v);
      assert m == [m[0]] + m[1..];
      assert KeySet(m) == {m[0].0} + KeySet(m[1..]);
      if m[0].0 == KStr(k) {
        assert KeySet(Put(m, k, v)) == {KStr(k)} + KeySet(m[1..]);
      } else {
        assert KeySet(Put(m, k, v)) == {m[0].0} + KeySet(Put(m[1..], k, v));
      }
    }
  }

  /** Reading any key after `d[k] = v`: `v` under `k`, the old value under every other key. */
  lemma {:induction false} PutFind(m: seq<(Key, Yaml)>, k: string, v: Yaml, q: string)
    ensures Find(Put(m, k, v), q) == if q == k then Some(v) else Find(m, q)
    decreases |m|
  {
    if |m| > 0 && m[0].0 != KStr(k) {
      PutFind(m[1..], k, v, q);
    }
  }

  /** Writing back the value a key already has changes nothing. */
  lemma {:induction false} PutSame(m: seq<(Key, Yaml)>, k: string, v: Yaml)
    requires Find(m, k) == Some(v)
    ensures Put(m, k, v) == m
    decreases |m|
  {
    if |m| > 0 && m[0].0 != KStr(k) {
      PutSame(m[1..], k, v);
    }
  }

  /** `str(x)` is empty only for the empty string. */
  lemma PyStrEmpty(y: Yaml)
    ensures PyStr(y) == "" <==> y == YStr("")
  {
    if !y.YStr? {
      assert |PyStr(y)| > 0 by {
        if y.YInt? && y.i < 0 {
          assert |IntToString(y.i)| == 1 + |NatToString(-y.i)|;
        }
      }
    }
  }

  /** `int(str(None))` raises: the text `None` is not an integer. */
  lemma NoneTextIsNotAnInteger()
    ensures KeyToInt(KStr(PyStr(YNull))) == None
  {
    var s := "None";
    StripNoSpace(s);
    assert !IsDigit(s[|s| - 1]);
    assert ParseStripped(s) == None;
  }
}
