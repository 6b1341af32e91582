/** The few JavaScript values the plugin compares and merges: option values,
    call arguments, truthiness and loose comparison with `false`. */
module JsValues {

  datatype Option<+T> = None | Some(value: T)

  /** An option value: a string, or switched off. `Off` stands for `false`
      (the default of every CSS option) and for the `null` default of `hint`,
      which the plugin only ever tests for truthiness. */
  datatype OptVal = Off | Str(s: string)

  /** A call argument: missing (`undefined`, `null` or `false`), a string,
      or a plain object given by its own properties. A property whose value
      is `undefined` is absent from the map, because `$.extend` skips it. */
  datatype Arg = Absent | Text(s: string) | Settings(fields: map<string, OptVal>)

  /** JavaScript truthiness (`if (x)`, `x || y`). On these values `x != ''`
      means the same: `false == ''` holds, and a string is compared with ''
      as a string. */
  predicate Truthy(v: OptVal)
  {
    v.Str? && v.s != ""
  }

  /** `x != false` under loose equality: `false` converts to the number 0,
      and so does every string that spells zero. */
  predicate NotLooselyFalse(v: OptVal)
  {
    v.Str? && !NumericZero(v.s)
  }

  /** The text spells zero for JavaScript's ToNumber: after trimming white
      space it is empty, a decimal zero (`0`, `-0`, `0.0`, `.0e5`) or a
      hexadecimal zero. The binary and octal forms of later engines are not
      included. */
  predicate NumericZero(s: string)
  {
    var t := TrimEnd(TrimStart(s));
    t == "" || HexZero(t) || DecimalZero(if |t| > 0 && (t[0] == '+' || t[0] == '-') then t[1..] else t)
  }

  predicate IsJsSpace(c: char)
  {
    c == ' ' || c == '\t' || c == '\n' || c == '\r' || c == '\U{000B}' || c == '\U{000C}'
    || c == '\U{00A0}' || c == '\U{FEFF}' || c == '\U{2028}' || c == '\U{2029}'
  }

  function TrimStart(s: string): (r: string)
    ensures |r| <= |s|
  {
    if s != [] && IsJsSpace(s[0]) then TrimStart(s[1..]) else s
  }

  function TrimEnd(s: string): (r: string)
    ensures |r| <= |s|
  {
    if s != [] && IsJsSpace(s[|s| - 1]) then TrimEnd(s[..|s| - 1]) else s
  }

  predicate AllChar(s: string, c: char)
  {
    forall k :: 0 <= k < |s| ==> s[k] == c
  }

  predicate AllDigits(s: string)
  {
    forall k :: 0 <= k < |s| ==> '0' <= s[k] <= '9'
  }

  predicate HexZero(t: string)
  {
    |t| > 2 && t[0] == '0' && (t[1] == 'x' || t[1] == 'X') && AllChar(t[2..], '0')
  }

  function CountChar(s: string, c: char): (n: nat)
    ensures n <= |s|
  {
    if s == [] then 0 else (if s[0] == c then 1 else 0) + CountChar(s[1..], c)
  }

  /** Index of the first `e` or `E` in `u`, or `|u|` when there is none. */
  function ExponentStart(u: string): (e: nat)
    ensures e <= |u|
    ensures e < |u| ==> u[e] == 'e' || u[e] == 'E'
  {
    if u == [] then 0
    else if u[0] == 'e' || u[0] == 'E' then 0
    else 1 + ExponentStart(u[1..])
  }

  /** An unsigned decimal literal whose value is zero: zeros with at most one
      point and at least one digit, then an optional exponent. */
  predicate DecimalZero(u: string)
  {
    var e := ExponentStart(u);
    var m := u[..e];
    && (forall k :: 0 <= k < |m| ==> m[k] == '0' || m[k] == '.')
    && CountChar(m, '.') <= 1
    && |m| > CountChar(m, '.')
    && (e == |u| || Exponent(u[e + 1..]))
  }

  predicate Exponent(x: string)
  {
    var d := if |x| > 0 && (x[0] == '+' || x[0] == '-') then x[1..] else x;
    |d| > 0 && AllDigits(d)
  }

  /** The string JavaScript produces when a plain object is used as text. */
  const ObjectText: string := "[object Object]"

  /** A truthy option is never loosely equal to `false` unless it spells
      zero, and a falsy one always is. */
  lemma LooseFalseAgreesWithTruthiness(v: OptVal)
    ensures !Truthy(v) ==> !NotLooselyFalse(v)
    ensures Truthy(v) && !NumericZero(v.s) ==> NotLooselyFalse(v)
  {
  }

  /** Text without white space at either end is left alone by trimming. */
  lemma TrimKeeps(s: string)
    requires s != [] && !IsJsSpace(s[0]) && !IsJsSpace(s[|s| - 1])
    ensures TrimEnd(TrimStart(s)) == s
  {
  }

  /** Trimming only ever cuts white space off the end, so it keeps a prefix,
      and a text that starts with something else keeps that first character. */
  lemma TrimEndPrefix(s: string)
    ensures TrimEnd(s) == s[..|TrimEnd(s)|]
    ensures s != [] && !IsJsSpace(s[0]) ==> TrimEnd(s) != []
  {
  }

  /** White space alone trims to nothing. */
  lemma {:induction false} TrimBlank(s: string)
    requires forall k :: 0 <= k < |s| ==> IsJsSpace(s[k])
    ensures TrimStart(s) == ""
  {
    if s != [] {
      TrimBlank(s[1..]);
    }
  }

  lemma {:induction false} NoExponent(u: string)
    requires forall k :: 0 <= k < |u| ==> u[k] != 'e' && u[k] != 'E'
    ensures ExponentStart(u) == |u|
  {
    if u != [] && u[0] != 'e' && u[0] != 'E' {
      NoExponent(u[1..]);
    }
  }

  lemma {:induction false} NoneOf(s: string, c: char)
    requires forall k :: 0 <= k < |s| ==> s[k] != c
    ensures CountChar(s, c) == 0
  {
    if s != [] {
      NoneOf(s[1..], c);
    }
  }

  /** A run of zeros (`'0'`, `'000'`) is truthy yet loosely equal to `false`,
      so an option set to it counts as unset where the plugin writes
      `x != false`. */
  lemma ZerosAreLooselyFalse(s: string)
    requires s != [] && AllChar(s, '0')
    ensures Truthy(Str(s)) && !NotLooselyFalse(Str(s))
  {
    TrimKeeps(s);
    NoExponent(s);
    assert s[..|s|] == s;
    NoneOf(s, '.');
  }

  /** White space alone (`' '`, a tab, a line break) is truthy and loosely
      equal to `false` as well. */
  lemma BlankIsLooselyFalse(s: string)
    requires s != [] && forall k :: 0 <= k < |s| ==> IsJsSpace(s[k])
    ensures Truthy(Str(s)) && !NotLooselyFalse(Str(s))
  {
    TrimBlank(s);
  }

  /** A hexadecimal zero (`'0x0'`, `'0X000'`) is loosely equal to `false`. */
  lemma HexZerosAreLooselyFalse(s: string)
    requires |s| > 2 && s[0] == '0' && (s[1] == 'x' || s[1] == 'X') && AllChar(s[2..], '0')
    ensures Truthy(Str(s)) && !NotLooselyFalse(Str(s))
  {
    assert s[|s| - 1] == s[2..][|s| - 3];
    TrimKeeps(s);
  }

  /** A text that does not begin like a number, such as any class name
      starting with a letter, is never loosely equal to `false`. */
  lemma WordIsNotLooselyFalse(s: string)
    requires s != [] && !IsJsSpace(s[0]) && !('0' <= s[0] <= '9')
    requires s[0] != '.' && s[0] != '+' && s[0] != '-'
    ensures Truthy(Str(s)) && NotLooselyFalse(Str(s))
  {
    TrimEndPrefix(s);
    var t := TrimEnd(TrimStart(s));
    assert t[0] == s[0];
    var e := ExponentStart(t);
    assert e > 0 ==> t[..e][0] == t[0];
  }
}
