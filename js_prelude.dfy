/** The few JavaScript built-ins the modelled code relies on, stated on Dafny values:
    optional values, String.prototype.trim, the UTF-16 `length` of a string,
    Array.prototype.slice with integer arguments, Math.ceil of an integer quotient,
    the `\w` class of a regular expression without the `u` flag, and the decimal
    rendering of a non-negative integer. */
module JsPrelude {

  /** An optional value: `undefined` (or a missing key) is None. */
  datatype Option<T> = None | Some(value: T)

  /** The outcome of a call that either returns a value or throws. */
  datatype Result<T, E> = Ok(value: T) | Err(error: E)

  /** JavaScript truthiness of a string that may be undefined: undefined and "" are falsy. */
  predicate Given(o: Option<string>) {
    o.Some? && o.value != ""
  }

  /** What a template literal makes of a thrown `new Error(message)`: Error.prototype.toString
      joins the name and the message with ": ", and gives the name alone when the message
      is empty. */
  function ErrorString(message: string): (r: string)
    ensures message == "" ==> r == "Error"
    ensures message != "" ==> r == "Error: " + message && r[7..] == message
  {
    if message == "" then "Error" else "Error: " + message
  }

  /** `\w` in a regular expression without the `u` flag: ASCII letters, digits and `_`. */
  predicate IsWordChar(c: char) {
    ('a' <= c <= 'z') || ('A' <= c <= 'Z') || ('0' <= c <= '9') || c == '_'
  }

  /** The characters String.prototype.trim strips: the WhiteSpace and LineTerminator
      code points of ECMA-262 (tab, vertical tab, form feed, space, no-break space,
      byte order mark, the space separators, line feed, carriage return, and the
      line and paragraph separators). */
  predicate IsWhitespace(c: char) {
    || c == '\t' || c == '\U{000B}' || c == '\U{000C}' || c == ' ' || c == '\U{00A0}' || c == '\U{FEFF}'
    || c == '\U{1680}' || ('\U{2000}' <= c <= '\U{200A}') || c == '\U{202F}' || c == '\U{205F}' || c == '\U{3000}'
    || c == '\n' || c == '\r' || c == '\U{2028}' || c == '\U{2029}'
  }

  /** Every character of `s` is whitespace (vacuously so for the empty string). */
  predicate Blank(s: string) {
    forall i :: 0 <= i < |s| ==> IsWhitespace(s[i])
  }

  /** Drops the leading whitespace. */
  function TrimStart(s: string): (r: string)
    ensures |r| <= |s| && r == s[|s| - |r|..]
    ensures r == [] || !IsWhitespace(r[0])
    ensures Blank(s[..|s| - |r|])
  {
    if s != [] && IsWhitespace(s[0]) then TrimStart(s[1..]) else s
  }

  /** Drops the trailing whitespace. */
  function TrimEnd(s: string): (r: string)
    ensures |r| <= |s| && r == s[..|r|]
    ensures r == [] || !IsWhitespace(r[|r| - 1])
    ensures Blank(s[|r|..])
  {
    if s != [] && IsWhitespace(s[|s| - 1]) then TrimEnd(s[..|s| - 1]) else s
  }

  /** String.prototype.trim: the leading whitespace and the trailing whitespace dropped. */
  function Trim(s: string): string {
    TrimStart(TrimEnd(s))
  }

  /** `s.trim().length === 0` holds exactly for the strings made of whitespace only. */
  lemma TrimEmptyIffBlank(s: string)
    ensures Trim(s) == [] <==> Blank(s)
  {
    var e := TrimEnd(s);
    if Trim(s) == [] {
      assert s[0..] == s;
    } else {
      var r := Trim(s);
      assert r == e[|e| - |r|..] && r != [];
      assert !IsWhitespace(s[|e| - |r|]);
    }
  }

  /** The number of UTF-16 code units of a character: two for a code point outside the
      Basic Multilingual Plane, one otherwise. */
  function Utf16Units(c: char): nat {
    if c as int >= 0x1_0000 then 2 else 1
  }

  /** `s.length` in JavaScript, which counts UTF-16 code units. */
  function Utf16Length(s: string): (n: nat)
    ensures |s| <= n <= 2 * |s|
    ensures (forall i :: 0 <= i < |s| ==> s[i] as int < 0x1_0000) ==> n == |s|
  {
    if s == [] then 0 else Utf16Units(s[0]) + Utf16Length(s[1..])
  }

  function Min(a: int, b: int): int { if a <= b then a else b }

  function Max(a: int, b: int): int { if a <= b then b else a }

  /** How Array.prototype.slice turns an integer argument into an index of a sequence
      of length `len`: a negative one counts from the end, and both are clamped. */
  function SliceIndex(rel: int, len: nat): (k: nat)
    ensures k <= len
    ensures 0 <= rel ==> k == Min(rel, len)
    ensures rel < 0 ==> k == Max(len + rel, 0)
  {
    if rel < 0 then (if len + rel < 0 then 0 else len + rel) else if rel < len then rel else len
  }

  /** Array.prototype.slice(start, end) with integer arguments. */
  function Slice<T>(s: seq<T>, start: int, end: int): (r: seq<T>)
    ensures |r| <= |s|
    ensures !(0 <= start && end < 0) ==> |r| <= Max(end - start, 0)
    ensures 0 <= start <= end ==> r == s[Min(start, |s|)..Min(end, |s|)]
    ensures forall x :: x in r ==> x in s
  {
    var from := SliceIndex(start, |s|);
    var to := SliceIndex(end, |s|);
    if from < to then s[from..to] else []
  }

  /** Math.ceil(a / b) for an integer `a` and a positive integer `b`. */
  function CeilDiv(a: int, b: int): (q: int)
    requires b > 0
    ensures (q - 1) * b < a <= q * b
  {
    -((-a) / b)
  }

  /** The ceiling is monotone in the dividend. */
  lemma CeilDivBounds(a: int, b: int, lo: int, hi: int)
    requires b > 0 && lo * b <= a <= hi * b
    ensures lo <= CeilDiv(a, b) <= hi
  {
  }

  function DigitChar(d: nat): (c: char)
    requires d < 10
    ensures '0' <= c <= '9'
  {
    ['0', '1', '2', '3', '4', '5', '6', '7', '8', '9'][d]
  }

  /** The decimal rendering of a non-negative integer, as string concatenation produces it. */
  function DecimalString(n: nat): (s: string)
    ensures s != [] && forall i :: 0 <= i < |s| ==> '0' <= s[i] <= '9'
  {
    if n < 10 then [DigitChar(n)] else DecimalString(n / 10) + [DigitChar(n % 10)]
  }
}
