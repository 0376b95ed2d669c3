/** The PHP runtime semantics the modelled code leans on: ordered arrays,
    truthiness, `isset`, `filter_var` with FILTER_VALIDATE_BOOLEAN and
    FILTER_VALIDATE_INT, integer-to-string conversion and `explode`. */
module PhpValues {
  import opened Wrappers

  /** An array key. PHP turns numeric string keys into integers; the modelled
      code only uses literal field names and positional keys, so the two
      kinds never collide here. */
  datatype Key = IntKey(i: int) | StrKey(s: string)

  /** A PHP value as it arrives in a request or a decoded JSON document.
      An array is an ordered sequence of entries, as in PHP. */
  datatype Value =
    | Null
    | Bool(b: bool)
    | Int(i: int)
    | Str(s: string)
    | Arr(entries: seq<Entry>)

  datatype Entry = Entry(key: Key, val: Value)

  /** PHP_INT_MIN and PHP_INT_MAX on a 64-bit build. */
  const MinInt: int := -0x8000_0000_0000_0000
  const MaxInt: int := 0x7FFF_FFFF_FFFF_FFFF

  // ---------------------------------------------------------------------
  // Ordered arrays

  /** `$a[$k]` when the key exists. */
  function Get(entries: seq<Entry>, k: Key): Option<Value>
  {
    if entries == [] then None
    else if entries[0].key == k then Some(entries[0].val)
    else Get(entries[1..], k)
  }

  /** `$a[$k] = $v`: an existing key keeps its position, a new key is appended. */
  function Set(entries: seq<Entry>, k: Key, v: Value): seq<Entry>
  {
    if entries == [] then [Entry(k, v)]
    else if entries[0].key == k then [Entry(k, v)] + entries[1..]
    else [entries[0]] + Set(entries[1..], k, v)
  }

  /** Reading `$a['name']`: a missing key reads as null. */
  function Field(entries: seq<Entry>, name: string): Value
  {
    Get(entries, StrKey(name)).GetOr(Null)
  }

  /** `isset($a['name'])`: the key exists and its value is not null. */
  predicate IsSet(entries: seq<Entry>, name: string)
  {
    Field(entries, name) != Null
  }

  /** Writing `$a[$k]` and reading it back gives the written value; every
      other key reads as before. */
  lemma {:induction false} GetSet(entries: seq<Entry>, k: Key, v: Value, k': Key)
    ensures Get(Set(entries, k, v), k') == if k' == k then Some(v) else Get(entries, k')
  {
    if entries != [] && entries[0].key != k {
      GetSet(entries[1..], k, v, k');
    }
  }

  /** Every GetSet fact at once, for a chain of writes. */
  lemma GetSetAll(entries: seq<Entry>, k: Key, v: Value)
    ensures forall k' :: Get(Set(entries, k, v), k') == if k' == k then Some(v) else Get(entries, k')
  {
    forall k' {
      GetSet(entries, k, v, k');
    }
  }

  /** Writing a key already present neither adds nor removes entries; a new
      key is appended. */
  lemma {:induction false} SetKeepsLength(entries: seq<Entry>, k: Key, v: Value)
    ensures Get(entries, k).Some? ==> |Set(entries, k, v)| == |entries|
    ensures Get(entries, k).None? ==> |Set(entries, k, v)| == |entries| + 1
  {
    if entries != [] && entries[0].key != k {
      SetKeepsLength(entries[1..], k, v);
    }
  }

  // ---------------------------------------------------------------------
  // Truthiness and string conversion

  /** PHP's boolean conversion: null, false, 0, "", "0" and [] are falsy. */
  predicate Truthy(v: Value)
  {
    match v
    case Null => false
    case Bool(b) => b
    case Int(i) => i != 0
    case Str(s) => s != "" && s != "0"
    case Arr(es) => es != []
  }

  /** The string a scalar converts to; an array has none. */
  function ToPhpString(v: Value): Option<string>
  {
    match v
    case Null => Some("")
    case Bool(b) => Some(if b then "1" else "")
    case Int(i) => Some(IntToDecimal(i))
    case Str(s) => Some(s)
    case Arr(_) => None
  }

  // ---------------------------------------------------------------------
  // Decimal digits

  predicate IsDigit(c: char) { '0' <= c <= '9' }

  predicate AllDigits(s: string) { forall i :: 0 <= i < |s| ==> IsDigit(s[i]) }

  function DigitChar(d: nat): char
    requires d < 10
  {
    ('0' as int + d) as char
  }

  function DigitsValue(s: string): nat
    requires AllDigits(s)
  {
    if s == [] then 0
    else 10 * DigitsValue(s[..|s| - 1]) + (s[|s| - 1] as int - '0' as int)
  }

  /** The shortest decimal spelling of a natural number. */
  function NatToDecimal(n: nat): string
  {
    if n < 10 then [DigitChar(n)] else NatToDecimal(n / 10) + [DigitChar(n % 10)]
  }

  /** PHP's (string) cast of an integer. */
  function IntToDecimal(i: int): string
  {
    if i < 0 then "-" + NatToDecimal(-i) else NatToDecimal(i)
  }

  /** Reading a decimal spelling back gives the number; it has no leading zero. */
  lemma {:induction false} NatToDecimalCorrect(n: nat)
    ensures |NatToDecimal(n)| > 0 && AllDigits(NatToDecimal(n))
    ensures DigitsValue(NatToDecimal(n)) == n
    ensures n > 0 ==> NatToDecimal(n)[0] != '0'
  {
    var s := NatToDecimal(n);
    if n >= 10 {
      var prefix := NatToDecimal(n / 10);
      NatToDecimalCorrect(n / 10);
      assert s == prefix + [DigitChar(n % 10)];
      assert s[..|s| - 1] == prefix;
      forall i | 0 <= i < |s|
        ensures IsDigit(s[i])
      {
        if i < |prefix| {
          assert s[i] == prefix[i];
        }
      }
      assert DigitsValue(s) == 10 * (n / 10) + n % 10;
      assert s[0] == prefix[0];
    } else {
      assert s == [DigitChar(n)];
    }
  }

  // ---------------------------------------------------------------------
  // filter_var

  /** The characters filter_var trims before validating. */
  predicate IsFilterSpace(c: char) { c == ' ' || c == '\t' || c == '\r' || c == '\n' || c == '\U{000B}' }

  function TrimLeft(s: string): (r: string)
    ensures |r| <= |s|
  {
    if s != [] && IsFilterSpace(s[0]) then TrimLeft(s[1..]) else s
  }

  function TrimRight(s: string): (r: string)
    ensures |r| <= |s|
  {
    if s != [] && IsFilterSpace(s[|s| - 1]) then TrimRight(s[..|s| - 1]) else s
  }

  function Trim(s: string): string { TrimRight(TrimLeft(s)) }

  function AsciiLower(s: string): (r: string)
    ensures |r| == |s|
  {
    if s == [] then []
    else [if 'A' <= s[0] <= 'Z' then (s[0] as int + 32) as char else s[0]] + AsciiLower(s[1..])
  }

  /** filter_var($s, FILTER_VALIDATE_BOOLEAN) === true: "1", "true", "on" or
      "yes", ignoring case and surrounding whitespace. */
  predicate IsTrueString(s: string)
  {
    AsciiLower(Trim(s)) in {"1", "true", "on", "yes"}
  }

  /** filter_var($v, FILTER_VALIDATE_BOOLEAN) with a default of false: every
      value that is not a recognised "true" spelling yields false, an array
      included. */
  predicate FilterBool(v: Value)
  {
    match ToPhpString(v)
    case Some(s) => IsTrueString(s)
    case None => false
  }

  /** Symfony's ParameterBag::getBoolean: FILTER_VALIDATE_BOOLEAN on a
      scalar; an array is filtered with FILTER_REQUIRE_ARRAY, which applies
      the filter to every element, nested arrays included, and keeps the
      keys. */
  function GetBoolean(v: Value): (r: Value)
    ensures !v.Arr? ==> r == Bool(FilterBool(v))
    ensures v.Arr? ==> r.Arr? && |r.entries| == |v.entries|
    ensures v.Arr? ==> forall i :: 0 <= i < |v.entries| ==>
              r.entries[i].key == v.entries[i].key && r.entries[i].val.Arr? == v.entries[i].val.Arr?
  {
    match v
    case Arr(es) =>
      Arr(seq(|es|, i requires 0 <= i < |es| => Entry(es[i].key, GetBoolean(es[i].val))))
    case _ => Bool(FilterBool(v))
  }

  /** filter_var($s, FILTER_VALIDATE_INT) on a string: an optional sign, then
      "0" or digits without a leading zero, within the 64-bit range. */
  function FilterIntString(s: string): (r: Option<int>)
    ensures r.Some? ==> MinInt <= r.value <= MaxInt
  {
    var t := Trim(s);
    if t == [] then None
    else
      var negative := t[0] == '-';
      var body := if t[0] == '-' || t[0] == '+' then t[1..] else t;
      if body == "0" then Some(0)
      else if body == [] || !AllDigits(body) || body[0] == '0' then None
      else
        var magnitude: int := DigitsValue(body);
        var v := if negative then -magnitude else magnitude;
        if MinInt <= v <= MaxInt then Some(v) else None
  }

  /** filter_var($v, FILTER_VALIDATE_INT) with options ['default' => d].
      An array fails the filter's scalar requirement and gives false before
      the default is looked at; a scalar that is not a valid integer gives
      the default. */
  function FilterInt(v: Value, default: int): (r: Value)
    ensures r == Bool(false) <==> v.Arr?
    ensures !v.Arr? ==> r.Int? && (r.i == default || MinInt <= r.i <= MaxInt)
  {
    match ToPhpString(v)
    case Some(s) => Int(FilterIntString(s).GetOr(default))
    case None => Bool(false)
  }

  lemma TrimDigits(s: string)
    requires |s| > 0 && AllDigits(s)
    ensures TrimLeft(s) == s && TrimRight(s) == s
  {
  }

  /** Every 64-bit integer survives the round trip through its decimal
      spelling and FILTER_VALIDATE_INT. */
  lemma FilterIntDecimal(i: int)
    requires MinInt <= i <= MaxInt
    ensures FilterIntString(IntToDecimal(i)) == Some(i)
  {
    var m: nat := if i < 0 then -i else i;
    NatToDecimalCorrect(m);
    var d := NatToDecimal(m);
    if i < 0 {
      var s := "-" + d;
      assert TrimLeft(s) == s;
      assert s[|s| - 1] == d[|d| - 1];
      assert TrimRight(s) == s;
      assert s[1..] == d;
    } else {
      TrimDigits(d);
    }
  }

  /** So an Int value passes FILTER_VALIDATE_INT unchanged. */
  lemma FilterIntOfInt(i: int, default: int)
    requires MinInt <= i <= MaxInt
    ensures FilterInt(Int(i), default) == Int(i)
  {
    FilterIntDecimal(i);
  }

  // ---------------------------------------------------------------------
  // explode and implode

  /** explode($sep, $s): the pieces between the separators, in order; an
      empty string gives one empty piece. */
  function Explode(sep: char, s: string): (pieces: seq<string>)
    ensures |pieces| > 0
  {
    if s == [] then [""]
    else
      var rest := Explode(sep, s[1..]);
      if s[0] == sep then [""] + rest else [[s[0]] + rest[0]] + rest[1..]
  }

  /** implode($sep, $pieces). */
  function Implode(sep: char, pieces: seq<string>): string
  {
    if pieces == [] then ""
    else if |pieces| == 1 then pieces[0]
    else pieces[0] + [sep] + Implode(sep, pieces[1..])
  }

  /** explode cuts exactly at the separators: no piece holds one, and joining
      the pieces again gives back the original string. */
  lemma {:induction false} ExplodeImplode(sep: char, s: string)
    ensures forall k :: 0 <= k < |Explode(sep, s)| ==> sep !in Explode(sep, s)[k]
    ensures Implode(sep, Explode(sep, s)) == s
  {
    if s != [] {
      ExplodeImplode(sep, s[1..]);
      var rest := Explode(sep, s[1..]);
      if s[0] == sep {
        assert Explode(sep, s) == [""] + rest;
      } else {
        var pieces := Explode(sep, s);
        assert pieces == [[s[0]] + rest[0]] + rest[1..];
        assert sep !in pieces[0];
        if |rest| > 1 {
          assert pieces[1..] == rest[1..];
          assert rest == [rest[0]] + rest[1..];
        }
      }
    }
  }

  // ---------------------------------------------------------------------
  // Substrings

  predicate StartsWith(s: string, prefix: string)
  {
    |prefix| <= |s| && s[..|prefix|] == prefix
  }

  predicate EndsWith(s: string, suffix: string)
  {
    |suffix| <= |s| && s[|s| - |suffix|..] == suffix
  }

  /** preg_match('/needle/', $s) for a needle without regex metacharacters. */
  predicate Contains(s: string, needle: string)
    decreases |s|
  {
    StartsWith(s, needle) || (s != [] && Contains(s[1..], needle))
  }

  /** A string that has the needle at a known position contains it. */
  lemma {:induction false} ContainsAt(s: string, needle: string, i: nat)
    requires i + |needle| <= |s| && s[i..i + |needle|] == needle
    ensures Contains(s, needle)
  {
    if i > 0 {
      assert s[1..][i - 1..i - 1 + |needle|] == needle;
      ContainsAt(s[1..], needle, i - 1);
    }
  }

  /** A needle found in a part of a concatenation is found in the whole. */
  lemma ContainsInConcat(a: string, b: string, c: string, needle: string)
    requires |needle| > 0 && b == needle
    ensures Contains(a + b + c, needle)
  {
    var s := a + b + c;
    assert s[|a|..|a| + |needle|] == needle;
    ContainsAt(s, needle, |a|);
  }
}
